/** The key-value lines of the tuner log: how a utility line is printed, and how the analysis reads it back. */
module LogLines {
  import opened Collections
  import opened Text

  // ---------------------------------------------------------------------------
  // Splitting at commas outside parentheses

  function DepthAfter(depth: nat, c: char): nat {
    if c == '(' then depth + 1 else if c == ')' && depth > 0 then depth - 1 else depth
  }

  function EndDepth(s: string, depth: nat): nat {
    if s == "" then depth else EndDepth(s[1..], DepthAfter(depth, s[0]))
  }

  /** Read from this depth, `s` has no comma at depth zero. */
  predicate NoTopComma(s: string, depth: nat) {
    s == "" || (!(s[0] == ',' && depth == 0) && NoTopComma(s[1..], DepthAfter(depth, s[0])))
  }

  /** What is cut out of `rest`, with `piece` already read at this depth. */
  ghost function Pieces(piece: string, rest: string, depth: nat): seq<string>
    decreases |rest|
  {
    if rest == "" then [piece]
    else if rest[0] == ',' && depth == 0 then [piece] + Pieces("", rest[1..], 0)
    else Pieces(piece + [rest[0]], rest[1..], DepthAfter(depth, rest[0]))
  }

  function AllTrimmed(pieces: seq<string>): seq<string> {
    seq(|pieces|, i requires 0 <= i < |pieces| => Trim(pieces[i]))
  }

  function NonEmpty(parts: seq<string>): seq<string> {
    if parts == [] then [] else (if parts[0] == "" then [] else [parts[0]]) + NonEmpty(parts[1..])
  }

  ghost function TopLevelParts(text: string): seq<string> {
    NonEmpty(AllTrimmed(Pieces("", text, 0)))
  }

  /**
   * The parts are always splittable: trimmed, not empty, without a top-level comma, and closed but for the last. By
   * `SplitUndoesJoin`, on the lists that are splittable, and only on those, this undoes joining with ", ".
   */
  method SplitTopLevelCommas(text: string) returns (parts: seq<string>)
    ensures parts == TopLevelParts(text) && Splittable(parts)
  {
    PartsSplittable("", text, 0);
    parts := CutAndTrim(text);
    parts := NonEmpty(parts);
  }

  /** The scan: everything between top-level commas, trimmed. */
  method CutAndTrim(text: string) returns (parts: seq<string>)
    ensures parts == AllTrimmed(Pieces("", text, 0))
  {
    ghost var pieces := [];
    parts := [];
    var start, depth := 0, 0;
    assert text[0..] == text && text[0..0] == "" && [] + Pieces("", text, 0) == Pieces("", text, 0);
    for index := 0 to |text|
      invariant start <= index && depth >= 0
      invariant Pieces("", text, 0) == pieces + Pieces(text[start..index], text[index..], depth)
      invariant parts == AllTrimmed(pieces)
    {
      var c := text[index];
      PiecesStep(text, start, index, depth, pieces);
      if c == '(' {
        depth := depth + 1;
      } else if c == ')' {
        depth := if depth - 1 > 0 then depth - 1 else 0;
      } else if c == ',' && depth == 0 {
        pieces := pieces + [text[start..index]];
        parts := parts + [Trim(text[start..index])];
        start := index + 1;
      }
    }
    assert text[|text|..] == "" && text[start..|text|] == text[start..];
    parts := parts + [Trim(text[start..])];
    assert parts == AllTrimmed(pieces + [text[start..]]);
  }

  lemma PiecesStep(text: string, start: nat, index: nat, depth: nat, pieces: seq<string>)
    requires start <= index < |text|
    ensures var now := pieces + Pieces(text[start..index], text[index..], depth);
      if text[index] == ',' && depth == 0
      then now == pieces + [text[start..index]] + Pieces(text[index + 1..index + 1], text[index + 1..], 0)
      else now == pieces + Pieces(text[start..index + 1], text[index + 1..], DepthAfter(depth, text[index]))
  {
    Slices(text, start, index);
    var rest := text[index..];
    if text[index] == ',' && depth == 0 {
      assert Pieces(text[start..index], rest, 0) == [text[start..index]] + Pieces("", rest[1..], 0);
    }
  }

  lemma Slices(text: string, start: nat, index: nat)
    requires start <= index < |text|
    ensures text[index..] != "" && text[index..][0] == text[index]
    ensures text[index..][1..] == text[index + 1..]
    ensures text[start..index] + [text[index]] == text[start..index + 1]
    ensures text[index + 1..index + 1] == ""
  {
  }

  // ---------------------------------------------------------------------------
  // Exactly which lists survive joining and splitting

  ghost predicate Segment(s: string) {
    s != "" && Trim(s) == s && NoTopComma(s, 0)
  }

  /** Non-empty trimmed segments with no top-level comma; all but the last leave no parenthesis open. */
  ghost predicate Splittable(segments: seq<string>) {
    && (forall i :: 0 <= i < |segments| ==> Segment(segments[i]))
    && (forall i :: 0 <= i < |segments| - 1 ==> EndDepth(segments[i], 0) == 0)
  }

  lemma {:induction false} Concat(a: string, b: string, depth: nat)
    ensures EndDepth(a + b, depth) == EndDepth(b, EndDepth(a, depth))
    ensures NoTopComma(a + b, depth) <==> NoTopComma(a, depth) && NoTopComma(b, EndDepth(a, depth))
  {
    if a == "" {
      assert a + b == b;
    } else {
      assert (a + b)[1..] == a[1..] + b;
      Concat(a[1..], b, DepthAfter(depth, a[0]));
    }
  }

  lemma {:induction false} PiecesPass(piece: string, s: string, rest: string, depth: nat)
    requires NoTopComma(s, depth)
    ensures Pieces(piece, s + rest, depth) == Pieces(piece + s, rest, EndDepth(s, depth))
    decreases |s|
  {
    if s == "" {
      assert s + rest == rest && piece + s == piece;
    } else {
      assert (s + rest)[1..] == s[1..] + rest && piece + [s[0]] + s[1..] == piece + s;
      PiecesPass(piece + [s[0]], s[1..], rest, DepthAfter(depth, s[0]));
    }
  }

  /** The first piece may start with the blank of the separator before it. */
  lemma {:induction false} JoinedParts(blank: string, segments: seq<string>)
    requires (blank == "" || blank == " ") && segments != [] && Splittable(segments)
    ensures NonEmpty(AllTrimmed(Pieces(blank, Join(segments, ", "), 0))) == segments
    decreases |segments|
  {
    var s := segments[0];
    assert Segment(s) && "" + s == s;
    if |segments| == 1 {
      assert s + "" == s;
      PiecesPass(blank, s, "", 0);
      OnePart(blank + s, s, []);
    } else {
      var more := Join(segments[1..], ", ");
      FirstPiece(blank, s, more);
      JoinedParts(" ", segments[1..]);
      OnePart(blank + s, s, Pieces(" ", more, 0));
    }
  }

  lemma FirstPiece(blank: string, s: string, more: string)
    requires NoTopComma(s, 0) && EndDepth(s, 0) == 0
    ensures Pieces(blank, s + ", " + more, 0) == [blank + s] + Pieces(" ", more, 0)
  {
    var rest := ", " + more;
    assert s + ", " + more == s + rest;
    PiecesPass(blank, s, rest, 0);
    assert rest[1..] == " " + more && (" " + more)[1..] == more && "" + " " == " ";
  }

  lemma OnePart(piece: string, s: string, more: seq<string>)
    requires Trim(piece) == s
    ensures NonEmpty(AllTrimmed([piece] + more)) == (if s == "" then [] else [s]) + NonEmpty(AllTrimmed(more))
  {
    assert AllTrimmed([piece] + more)[1..] == AllTrimmed(more);
  }

  // Every result of the splitter is splittable.

  lemma {:induction false} TrimLeftKeeps(s: string)
    requires NoTopComma(s, 0)
    ensures NoTopComma(TrimLeft(s), 0) && EndDepth(TrimLeft(s), 0) == EndDepth(s, 0)
    ensures TrimLeft(s) == "" || !IsSpace(TrimLeft(s)[0])
  {
    if s != "" && IsSpace(s[0]) {
      TrimLeftKeeps(s[1..]);
    }
  }

  lemma {:induction false} TrimRightKeeps(s: string)
    requires NoTopComma(s, 0) && (s == "" || !IsSpace(s[0]))
    ensures NoTopComma(TrimRight(s), 0) && EndDepth(TrimRight(s), 0) == EndDepth(s, 0)
    ensures TrimRight(s) == "" || (!IsSpace(TrimRight(s)[0]) && !IsSpace(TrimRight(s)[|TrimRight(s)| - 1]))
  {
    if s != "" && IsSpace(s[|s| - 1]) {
      var front, last := s[..|s| - 1], s[|s| - 1..];
      assert s == front + last;
      Concat(front, last, 0);
      assert last[1..] == "";
      TrimRightKeeps(front);
    }
  }

  lemma TrimmedSegment(s: string)
    requires NoTopComma(s, 0)
    ensures Trim(s) == "" || Segment(Trim(s))
    ensures EndDepth(Trim(s), 0) == EndDepth(s, 0)
  {
    TrimLeftKeeps(s);
    TrimRightKeeps(TrimLeft(s));
    var t := Trim(s);
    if t != "" {
      assert TrimLeft(t) == t && TrimRight(t) == t;
    }
  }

  lemma {:induction false} PartsSplittable(piece: string, rest: string, depth: nat)
    requires NoTopComma(piece, 0) && EndDepth(piece, 0) == depth
    ensures Splittable(NonEmpty(AllTrimmed(Pieces(piece, rest, depth))))
    decreases |rest|
  {
    if rest == "" {
      TrimmedSegment(piece);
      OnePart(piece, Trim(piece), []);
    } else if rest[0] == ',' && depth == 0 {
      TrimmedSegment(piece);
      PartsSplittable("", rest[1..], 0);
      OnePart(piece, Trim(piece), Pieces("", rest[1..], 0));
    } else {
      Concat(piece, [rest[0]], 0);
      assert [rest[0]][1..] == "";
      PartsSplittable(piece + [rest[0]], rest[1..], DepthAfter(depth, rest[0]));
    }
  }

  /** Splitting undoes joining with ", " exactly on the splittable lists. */
  lemma SplitUndoesJoin(segments: seq<string>)
    ensures TopLevelParts(Join(segments, ", ")) == segments <==> Splittable(segments)
  {
    PartsSplittable("", Join(segments, ", "), 0);
    if segments == [] {
      OnePart("", "", []);
    } else if Splittable(segments) {
      JoinedParts("", segments);
    }
  }

  /** An open parenthesis swallows the separator, and a top-level comma adds one. */
  lemma NotSplittable()
    ensures TopLevelParts(Join(["(a", "b)"], ", ")) != ["(a", "b)"]
    ensures TopLevelParts(Join(["a,b"], ", ")) != ["a,b"]
  {
    SplitUndoesJoin(["(a", "b)"]);
    assert "(a"[1..] == "a" && "a"[1..] == "";
    assert EndDepth("(a", 0) == EndDepth("a", 1) == 1;
    assert ["(a", "b)"][0] == "(a";
    SplitUndoesJoin(["a,b"]);
    assert "a,b"[1..] == ",b" && !NoTopComma(",b", 0);
    assert ["a,b"][0] == "a,b";
  }

  // ---------------------------------------------------------------------------
  // The segment pattern: name=norm (raw=raw, weighted=weighted)

  datatype Groups = Groups(name: string, norm: string, raw: string, weighted: string)

  predicate IsWordChar(c: char) {
    'a' <= c <= 'z' || 'A' <= c <= 'Z' || '0' <= c <= '9' || c == '_'
  }

  const LOWER: string := "abcdefghijklmnopqrstuvwxyz"
  const UPPER: string := "ABCDEFGHIJKLMNOPQRSTUVWXYZ"
  const DIGITS: string := "0123456789"

  lemma WordCharsAre(c: char)
    ensures IsWordChar(c) <==> c in LOWER || c in UPPER || c in DIGITS || c == '_'
  {
    InRow(LOWER, 'a', c);
    InRow(UPPER, 'A', c);
    InRow(DIGITS, '0', c);
  }

  /** Characters that stand one after the other are those from the first to the last. */
  lemma InRow(row: string, first: char, c: char)
    requires row != [] && forall i :: 0 <= i < |row| ==> row[i] as int == first as int + i
    ensures c in row <==> first <= c && c as int < first as int + |row|
  {
    if first <= c && c as int < first as int + |row| {
      assert row[c as int - first as int] == c;
    }
  }

  predicate IsWord(s: string) {
    s != "" && forall i :: 0 <= i < |s| ==> IsWordChar(s[i])
  }

  function SegmentText(g: Groups): string {
    g.name + "=" + g.norm + " (raw=" + g.raw + ", weighted=" + g.weighted + ")"
  }

  /** What the regular expression says of a match. */
  ghost predicate Matches(part: string, g: Groups) {
    && part == SegmentText(g)
    && IsWord(g.name) && IsToken(g.norm)
    && g.raw != "" && Without(g.raw, ',')
    && g.weighted != "" && Without(g.weighted, ')')
  }

  const RAW: string := " (raw="
  const WEIGHTED: string := ", weighted="

  /** What follows `sep`, if that is what stands at place `n`. */
  function After(text: string, n: nat, sep: string): Option<string>
    requires n <= |text|
  {
    if sep <= text[n..] then Some(text[n..][|sep|..]) else None
  }

  function MatchWeighted(text: string): Option<string> {
    var p := Find(text, ')');
    if 0 < p && p + 1 == |text| then Some(text[..p]) else None
  }

  function MatchRaw(text: string): Option<(string, string)> {
    var c := Find(text, ',');
    match After(text, c, WEIGHTED)
    case None => None
    case Some(rest) =>
      match MatchWeighted(rest)
      case None => None
      case Some(weighted) => if c == 0 then None else Some((text[..c], weighted))
  }

  function MatchNorm(text: string): Option<(string, string, string)> {
    var w := WordLength(text);
    match After(text, w, RAW)
    case None => None
    case Some(rest) =>
      match MatchRaw(rest)
      case None => None
      case Some((raw, weighted)) => if w == 0 then None else Some((text[..w], raw, weighted))
  }

  /** Matching from left to right, without going back. */
  function MatchSegment(part: string): Option<Groups> {
    var e := Find(part, '=');
    match After(part, e, "=")
    case None => None
    case Some(rest) =>
      match MatchNorm(rest)
      case None => None
      case Some((norm, raw, weighted)) => if IsWord(part[..e]) then Some(Groups(part[..e], norm, raw, weighted))
          else None
  }

  // Each stage accepts exactly the texts of its form.

  lemma AfterExact(text: string, n: nat, sep: string, tail: string)
    requires n <= |text|
    ensures After(text, n, sep) == Some(tail) <==> text[n..] == sep + tail
  {
    if After(text, n, sep) == Some(tail) {
      assert text[n..] == text[n..][..|sep|] + text[n..][|sep|..];
    }
  }

  lemma Halved(text: string, n: nat, a: string, b: string)
    requires n <= |text|
    ensures text[..n] == a && text[n..] == b ==> text == a + b
    ensures text == a + b && n == |a| ==> text[..n] == a && text[n..] == b
  {
    assert text == text[..n] + text[n..];
  }

  /** The text before the first `sep[0]`, and what follows `sep` there. */
  lemma SplitFound(text: string, sep: string, a: string, tail: string)
    requires sep != ""
    ensures Without(a, sep[0]) && text == a + (sep + tail)
       <==> a == text[..Find(text, sep[0])] && After(text, Find(text, sep[0]), sep) == Some(tail)
  {
    var n := Find(text, sep[0]);
    AfterExact(text, n, sep, tail);
    Halved(text, n, a, sep + tail);
    if Without(a, sep[0]) && text == a + (sep + tail) {
      FindFirst(a, sep + tail, sep[0]);
    }
  }

  lemma {:induction false} WordIsToken(s: string)
    ensures forall i :: 0 <= i < WordLength(s) ==> !IsSpace(s[i])
  {
    if s != "" && !IsSpace(s[0]) {
      WordIsToken(s[1..]);
      forall i | 0 <= i < WordLength(s) ensures !IsSpace(s[i]) {
        assert i > 0 ==> s[i] == s[1..][i - 1];
      }
    }
  }

  ghost predicate NoSpace(s: string) {
    forall i :: 0 <= i < |s| ==> !IsSpace(s[i])
  }

  lemma FirstWord(text: string)
    ensures NoSpace(text[..WordLength(text)])
  {
    WordIsToken(text);
  }

  /** The first word, and what follows `sep` there. */
  lemma SplitWord(text: string, sep: string, a: string, tail: string)
    requires sep != "" && IsSpace(sep[0])
    ensures NoSpace(a) && text == a + (sep + tail)
       <==> a == text[..WordLength(text)] && After(text, WordLength(text), sep) == Some(tail)
  {
    var n := WordLength(text);
    FirstWord(text);
    AfterExact(text, n, sep, tail);
    Halved(text, n, a, sep + tail);
    if NoSpace(a) && text == a + (sep + tail) {
      WordEnds(a, sep + tail);
    }
  }

  lemma WeightedExact(text: string, weighted: string)
    ensures MatchWeighted(text) == Some(weighted) <==>
      text == weighted + ")" && weighted != "" && Without(weighted, ')')
  {
    if text == weighted + ")" && Without(weighted, ')') {
      FindFirst(weighted, ")", ')');
    }
  }

  function RawPart(raw: string, weighted: string): string {
    raw + (WEIGHTED + (weighted + ")"))
  }

  function NormPart(norm: string, raw: string, weighted: string): string {
    norm + (RAW + RawPart(raw, weighted))
  }

  ghost predicate RawOk(raw: string, weighted: string) {
    raw != "" && Without(raw, ',') && weighted != "" && Without(weighted, ')')
  }

  lemma RawExact(text: string, raw: string, weighted: string)
    ensures MatchRaw(text) == Some((raw, weighted)) <==> text == RawPart(raw, weighted) && RawOk(raw, weighted)
  {
    var tail := weighted + ")";
    SplitFound(text, WEIGHTED, raw, tail);
    WeightedExact(tail, weighted);
    match After(text, Find(text, ','), WEIGHTED)
    case None =>
    case Some(rest) => WeightedExact(rest, weighted);
  }

  lemma NormExact(text: string, norm: string, raw: string, weighted: string)
    ensures MatchNorm(text) == Some((norm, raw, weighted))
       <==> text == NormPart(norm, raw, weighted) && IsToken(norm) && RawOk(raw, weighted)
  {
    var tail := RawPart(raw, weighted);
    SplitWord(text, RAW, norm, tail);
    RawExact(tail, raw, weighted);
    match After(text, WordLength(text), RAW)
    case None =>
    case Some(rest) => RawExact(rest, raw, weighted);
  }

  lemma SegmentTextIs(g: Groups)
    ensures SegmentText(g) == g.name + ("=" + NormPart(g.norm, g.raw, g.weighted))
  {
    var w := g.weighted + ")";
    var r := g.raw + (", weighted=" + w);
    assert g.raw + ", weighted=" + g.weighted + ")" == r;
    assert g.norm + " (raw=" + g.raw + ", weighted=" + g.weighted + ")" == g.norm + (" (raw=" + r);
  }

  /** The matcher finds exactly the decomposition the pattern allows; in particular there is at most one. */
  lemma MatchExact(part: string, g: Groups)
    ensures MatchSegment(part) == Some(g) <==> Matches(part, g)
  {
    var tail := NormPart(g.norm, g.raw, g.weighted);
    SegmentTextIs(g);
    SplitFound(part, "=", g.name, tail);
    NormExact(tail, g.norm, g.raw, g.weighted);
    WordWithout(g.name);
    match After(part, Find(part, '='), "=")
    case None =>
    case Some(rest) => NormExact(rest, g.norm, g.raw, g.weighted);
  }

  lemma WordWithout(s: string)
    ensures IsWord(s) ==> Without(s, '=')
  {
  }

  // ---------------------------------------------------------------------------
  // Filling the dictionary; `scalar` reads a trimmed value

  const NORM: string := "_norm"

  /** `name` without any occurrence of "_norm". */
  function RemoveNorm(name: string): string {
    if name == "" then "" else if NORM <= name then RemoveNorm(name[|NORM|..]) else [name[0]] + RemoveNorm(name[1..])
  }

  function Prefix(name: string): string {
    if |NORM| <= |name| && name[|name| - |NORM|..] == NORM then RemoveNorm(name) else name
  }

  function AddKeyValue<V>(scalar: string -> V, values: map<string, V>, part: string): map<string, V> {
    var e := Find(part, '=');
    if e == |part| then values else values[Trim(part[..e]) := scalar(Trim(part[e + 1..]))]
  }

  function AddGroups<V>(scalar: string -> V, values: map<string, V>, g: Groups): map<string, V> {
    values[g.name := scalar(Trim(g.norm))]
          [Prefix(g.name) + "_raw" := scalar(Trim(g.raw))]
          [Prefix(g.name) + "_weighted" := scalar(Trim(g.weighted))]
  }

  function AddUtility<V>(scalar: string -> V, values: map<string, V>, part: string): map<string, V> {
    match MatchSegment(part)
    case Some(g) => AddGroups(scalar, values, g)
    case None => AddKeyValue(scalar, values, part)
  }

  ghost function KeyValues<V>(scalar: string -> V, parts: seq<string>): map<string, V> {
    if parts == [] then map[] else AddKeyValue(scalar, KeyValues(scalar, parts[..|parts| - 1]), parts[|parts| - 1])
  }

  ghost function UtilityValues<V>(scalar: string -> V, parts: seq<string>): map<string, V> {
    if parts == [] then map[] else AddUtility(scalar, UtilityValues(scalar, parts[..|parts| - 1]), parts[|parts| - 1])
  }

  lemma ValuesStep<V>(scalar: string -> V, parts: seq<string>, i: nat)
    requires i < |parts|
    ensures KeyValues(scalar, parts[..i + 1]) == AddKeyValue(scalar, KeyValues(scalar, parts[..i]), parts[i])
    ensures UtilityValues(scalar, parts[..i + 1]) == AddUtility(scalar, UtilityValues(scalar, parts[..i]), parts[i])
  {
    assert parts[..i + 1][..i] == parts[..i];
  }

  method ParseKeyValueLine<V>(scalar: string -> V, text: string) returns (values: map<string, V>)
    ensures values == KeyValues(scalar, TopLevelParts(text))
  {
    var parts := SplitTopLevelCommas(text);
    values := FillKeyValues(scalar, parts);
  }

  method FillKeyValues<V>(scalar: string -> V, parts: seq<string>) returns (values: map<string, V>)
    ensures values == KeyValues(scalar, parts)
  {
    values := map[];
    for i := 0 to |parts|
      invariant values == KeyValues(scalar, parts[..i])
    {
      ValuesStep(scalar, parts, i);
      values := AddKeyValue(scalar, values, parts[i]);
    }
    assert parts[..|parts|] == parts;
  }

  method ParseUtilityLine<V>(scalar: string -> V, text: string) returns (values: map<string, V>)
    ensures values == UtilityValues(scalar, TopLevelParts(text))
  {
    var parts := SplitTopLevelCommas(text);
    values := FillUtility(scalar, parts);
  }

  method FillUtility<V>(scalar: string -> V, parts: seq<string>) returns (values: map<string, V>)
    ensures values == UtilityValues(scalar, parts)
  {
    values := map[];
    for i := 0 to |parts|
      invariant values == UtilityValues(scalar, parts[..i])
    {
      ValuesStep(scalar, parts, i);
      values := AddUtility(scalar, values, parts[i]);
    }
    assert parts[..|parts|] == parts;
  }

  // ---------------------------------------------------------------------------
  // Reading back printed lines

  /** Text without parentheses or commas. */
  predicate Flat(s: string) {
    forall i :: 0 <= i < |s| ==> s[i] != '(' && s[i] != ')' && s[i] != ','
  }

  /** What a printed value looks like. */
  predicate Printed(s: string) {
    IsToken(s) && Flat(s)
  }

  predicate Key(s: string) {
    Printed(s) && Without(s, '=')
  }

  lemma {:induction false} FlatPasses(s: string, depth: nat)
    requires Flat(s)
    ensures EndDepth(s, depth) == depth && NoTopComma(s, depth)
  {
    if s != "" {
      FlatPasses(s[1..], depth);
    }
  }

  /** Inside parentheses a comma is no boundary. */
  lemma {:induction false} InsidePasses(s: string, depth: nat)
    requires depth > 0 && Without(s, '(') && Without(s, ')')
    ensures EndDepth(s, depth) == depth && NoTopComma(s, depth)
  {
    if s != "" {
      InsidePasses(s[1..], depth);
    }
  }

  lemma TrimmedAlready(s: string)
    requires s != "" && !IsSpace(s[0]) && !IsSpace(s[|s| - 1])
    ensures Trim(s) == s
  {
  }

  function KeyValueText(key: string, value: string): string {
    key + "=" + value
  }

  /** A segment that leaves no parenthesis open. */
  ghost predicate Closed(s: string) {
    Segment(s) && EndDepth(s, 0) == 0
  }

  lemma ClosedSplit(parts: seq<string>)
    requires forall i :: 0 <= i < |parts| ==> Closed(parts[i])
    ensures Splittable(parts) && TopLevelParts(Join(parts, ", ")) == parts
  {
    SplitUndoesJoin(parts);
  }

  lemma KeyValueClosed(key: string, value: string)
    requires Key(key) && Printed(value)
    ensures Closed(KeyValueText(key, value))
  {
    TrimmedAlready(KeyValueText(key, value));
    FlatPasses(KeyValueText(key, value), 0);
  }

  lemma KeyValueParts(key: string, value: string)
    requires Key(key) && Printed(value)
    ensures var part := KeyValueText(key, value);
      && Find(part, '=') == |key| < |part| && part[..|key|] == key && part[|key| + 1..] == value
      && Trim(key) == key && Trim(value) == value
  {
    assert KeyValueText(key, value) == key + ("=" + value);
    FindFirst(key, "=" + value, '=');
    TrimmedAlready(key);
    TrimmedAlready(value);
  }

  lemma KeyValueReads<V>(scalar: string -> V, values: map<string, V>, key: string, value: string)
    requires Key(key) && Printed(value)
    ensures AddKeyValue(scalar, values, KeyValueText(key, value)) == values[key := scalar(value)]
    ensures AddUtility(scalar, values, KeyValueText(key, value)) == values[key := scalar(value)]
  {
    KeyValueParts(key, value);
  }

  ghost predicate PairOk(pair: (string, string), part: string) {
    Key(pair.0) && Printed(pair.1) && part == KeyValueText(pair.0, pair.1)
  }

  /** A line of printed key-value pairs is read back as exactly those pairs, the last one of a key winning. */
  lemma KeyValuesReadBack<V>(scalar: string -> V, pairs: seq<(string, string)>, parts: seq<string>)
    requires |parts| == |pairs| && forall i :: 0 <= i < |pairs| ==> PairOk(pairs[i], parts[i])
    ensures KeyValues(scalar, TopLevelParts(Join(parts, ", "))) == PairMap(scalar, pairs)
  {
    forall i | 0 <= i < |parts| ensures Closed(parts[i]) {
      KeyValueClosed(pairs[i].0, pairs[i].1);
    }
    ClosedSplit(parts);
    KeyValuesFold(scalar, pairs, parts);
  }

  lemma {:induction false} KeyValuesFold<V>(scalar: string -> V, pairs: seq<(string, string)>, parts: seq<string>)
    requires |parts| == |pairs| && forall i :: 0 <= i < |pairs| ==> PairOk(pairs[i], parts[i])
    ensures KeyValues(scalar, parts) == PairMap(scalar, pairs)
  {
    if parts != [] {
      var n := |parts| - 1;
      KeyValuesFold(scalar, pairs[..n], parts[..n]);
      assert PairOk(pairs[n], parts[n]);
      KeyValueReads(scalar, KeyValues(scalar, parts[..n]), pairs[n].0, pairs[n].1);
    }
  }

  ghost function PairMap<V>(scalar: string -> V, pairs: seq<(string, string)>): map<string, V> {
    if pairs == [] then map[] else
      var last := pairs[|pairs| - 1];
      PairMap(scalar, pairs[..|pairs| - 1])[last.0 := scalar(last.1)]
  }

  // ---------------------------------------------------------------------------
  // Utility lines

  /** One metric of a line: its name, and its printed normalised, raw and weighted values. */
  datatype Metric = Metric(base: string, norm: string, raw: string, weighted: string)

  predicate MetricOk(m: Metric) {
    IsWord(m.base) && Without(m.base, '_') && Printed(m.norm) && Printed(m.raw) && Printed(m.weighted)
  }

  function MetricText(m: Metric): string {
    SegmentText(Groups(m.base + NORM, m.norm, m.raw, m.weighted))
  }

  /** The dictionary that holds three values of each metric. */
  ghost function MetricMap<V>(scalar: string -> V, metrics: seq<Metric>): map<string, V> {
    if metrics == [] then map[] else
      AddMetric(scalar, MetricMap(scalar, metrics[..|metrics| - 1]), metrics[|metrics| - 1])
  }

  ghost function AddMetric<V>(scalar: string -> V, values: map<string, V>, m: Metric): map<string, V> {
    values[m.base + NORM := scalar(m.norm)][m.base + "_raw" := scalar(m.raw)][m.base
        + "_weighted" := scalar(m.weighted)]
  }

  lemma {:induction false} NormRemoved(base: string)
    requires Without(base, '_')
    ensures RemoveNorm(base + NORM) == base
  {
    if base == "" {
      assert base + NORM == NORM && NORM[|NORM|..] == "";
    } else {
      var s := base + NORM;
      assert s[0] == base[0] && s[1..] == base[1..] + NORM;
      NormRemoved(base[1..]);
      assert [base[0]] + base[1..] == base;
    }
  }

  lemma PrefixOf(base: string)
    requires Without(base, '_')
    ensures Prefix(base + NORM) == base
  {
    NormRemoved(base);
    assert (base + NORM)[|base|..] == NORM;
  }

  lemma SegmentSplits(g: Groups)
    ensures SegmentText(g) == (g.name + "=" + g.norm + " ") + ("("
      + (("raw=" + g.raw + ", weighted=" + g.weighted) + ")"))
  {
    assert " (raw=" == " " + ("(" + "raw=");
  }

  lemma SegmentDepths(g: Groups)
    requires Key(g.name) && Printed(g.norm) && Printed(g.raw) && Printed(g.weighted)
    ensures Closed(SegmentText(g))
  {
    var s := SegmentText(g);
    var a := g.name + "=" + g.norm + " ";
    var inner := "raw=" + g.raw + ", weighted=" + g.weighted;
    SegmentSplits(g);
    FlatPasses(a, 0);
    assert "("[1..] == "" && ")"[1..] == "";
    InsidePasses(inner, 1);
    Concat(inner, ")", 1);
    Concat("(", inner + ")", 0);
    Concat(a, "(" + (inner + ")"), 0);
    TrimmedAlready(s);
  }

  lemma NormIsWord(base: string)
    requires IsWord(base)
    ensures IsWord(base + NORM)
  {
    forall i | 0 <= i < |base + NORM| ensures IsWordChar((base + NORM)[i]) {
      assert i >= |base| ==> (base + NORM)[i] == NORM[i - |base|];
    }
  }

  lemma GroupsRead<V>(scalar: string -> V, values: map<string, V>, m: Metric)
    requires MetricOk(m)
    ensures AddGroups(scalar, values, Groups(m.base + NORM, m.norm, m.raw, m.weighted)) == AddMetric(scalar, values, m)
  {
    PrefixOf(m.base);
    TrimmedAlready(m.norm);
    TrimmedAlready(m.raw);
    TrimmedAlready(m.weighted);
  }

  lemma MetricMatches(m: Metric)
    requires MetricOk(m)
    ensures MatchSegment(MetricText(m)) == Some(Groups(m.base + NORM, m.norm, m.raw, m.weighted))
    ensures Closed(MetricText(m))
  {
    var g := Groups(m.base + NORM, m.norm, m.raw, m.weighted);
    NormIsWord(m.base);
    SegmentDepths(g);
    MatchExact(MetricText(m), g);
  }

  lemma MetricReads<V>(scalar: string -> V, values: map<string, V>, m: Metric)
    requires MetricOk(m)
    ensures AddUtility(scalar, values, MetricText(m)) == AddMetric(scalar, values, m)
  {
    MetricMatches(m);
    GroupsRead(scalar, values, m);
  }

  /** The parts of a line: the metrics, then one key with its value. */
  ghost predicate PartsOf(metrics: seq<Metric>, key: string, value: string, parts: seq<string>) {
    && |parts| == |metrics| + 1
    && (forall i :: 0 <= i < |metrics| ==> parts[i] == MetricText(metrics[i]))
    && parts[|metrics|] == KeyValueText(key, value)
  }

  lemma {:induction false} MetricsFold<V>(scalar: string -> V, metrics: seq<Metric>, parts: seq<string>)
    requires AllMetricsOk(metrics)
    requires |parts| == |metrics| && forall i :: 0 <= i < |metrics| ==> parts[i] == MetricText(metrics[i])
    ensures UtilityValues(scalar, parts) == MetricMap(scalar, metrics)
  {
    if parts != [] {
      var n := |parts| - 1;
      MetricsFold(scalar, metrics[..n], parts[..n]);
      MetricReads(scalar, MetricMap(scalar, metrics[..n]), metrics[n]);
    }
  }

  ghost predicate AllMetricsOk(metrics: seq<Metric>) {
    forall i :: 0 <= i < |metrics| ==> MetricOk(metrics[i])
  }

  lemma PartsClosed(metrics: seq<Metric>, key: string, value: string, parts: seq<string>)
    requires AllMetricsOk(metrics) && Key(key) && Printed(value) && PartsOf(metrics, key, value, parts)
    ensures Splittable(parts) && TopLevelParts(Join(parts, ", ")) == parts
  {
    forall i | 0 <= i < |parts| ensures Closed(parts[i]) {
      if i < |metrics| {
        MetricMatches(metrics[i]);
      } else {
        KeyValueClosed(key, value);
      }
    }
    ClosedSplit(parts);
  }

  /** Any line of metrics and a last key is read back as exactly their values. */
  lemma LineReadBack<V>(scalar: string -> V, metrics: seq<Metric>, key: string, value: string, parts: seq<string>)
    requires AllMetricsOk(metrics) && Key(key) && Printed(value) && PartsOf(metrics, key, value, parts)
    ensures UtilityValues(scalar, TopLevelParts(Join(parts, ", "))) == MetricMap(scalar, metrics)[key := scalar(value)]
  {
    PartsClosed(metrics, key, value, parts);
    MetricsFold(scalar, metrics, parts[..|metrics|]);
    KeyValueReads(scalar, MetricMap(scalar, metrics), key, value);
  }

  // Nothing is overwritten: a key tells its metric.

  ghost predicate MetricStored<V>(scalar: string -> V, values: map<string, V>, m: Metric) {
    && m.base + NORM in values && values[m.base + NORM] == scalar(m.norm)
    && m.base + "_raw" in values && values[m.base + "_raw"] == scalar(m.raw)
    && m.base + "_weighted" in values && values[m.base + "_weighted"] == scalar(m.weighted)
  }

  /** Keys with different bases differ. */
  lemma KeysDiffer(a: string, s: string, b: string, t: string)
    requires Without(a, '_') && Without(b, '_') && a != b && s != "" && s[0] == '_' && t != "" && t[0] == '_'
    ensures a + s != b + t
  {
    FindFirst(a, s, '_');
    FindFirst(b, t, '_');
    assert (a + s)[..|a|] == a && (b + t)[..|b|] == b;
  }

  lemma AddedStored<V>(scalar: string -> V, values: map<string, V>, m: Metric)
    ensures MetricStored(scalar, AddMetric(scalar, values, m), m)
  {
    assert |m.base + NORM| == |m.base| + 5 && |m.base + "_raw"| == |m.base| + 4
        && |m.base + "_weighted"| == |m.base| + 9;
  }

  lemma OtherStays<V>(scalar: string -> V, values: map<string, V>, m: Metric, base: string, suffix: string)
    requires Without(m.base, '_') && Without(base, '_') && base != m.base && suffix != "" && suffix[0] == '_'
    requires base + suffix in values
    ensures base + suffix in AddMetric(scalar, values, m) && AddMetric(scalar, values, m)[base + suffix]
      == values[base + suffix]
  {
    KeysDiffer(base, suffix, m.base, NORM);
    KeysDiffer(base, suffix, m.base, "_raw");
    KeysDiffer(base, suffix, m.base, "_weighted");
  }

  lemma StoredStays<V>(scalar: string -> V, values: map<string, V>, m: Metric, added: Metric)
    requires MetricStored(scalar, values, m)
    requires Without(m.base, '_') && Without(added.base, '_') && m.base != added.base
    ensures MetricStored(scalar, AddMetric(scalar, values, added), m)
  {
    OtherStays(scalar, values, added, m.base, NORM);
    OtherStays(scalar, values, added, m.base, "_raw");
    OtherStays(scalar, values, added, m.base, "_weighted");
  }

  lemma {:induction false} AllStored<V>(scalar: string -> V, metrics: seq<Metric>, k: nat)
    requires forall i :: 0 <= i < |metrics| ==> Without(metrics[i].base, '_')
    requires forall i, j :: 0 <= i < j < |metrics| ==> metrics[i].base != metrics[j].base
    requires k < |metrics|
    ensures MetricStored(scalar, MetricMap(scalar, metrics), metrics[k])
  {
    var n := |metrics| - 1;
    if k == n {
      AddedStored(scalar, MetricMap(scalar, metrics[..n]), metrics[n]);
    } else {
      AllStored(scalar, metrics[..n], k);
      StoredStays(scalar, MetricMap(scalar, metrics[..n]), metrics[k], metrics[n]);
    }
  }

  lemma LastStays<V>(scalar: string -> V, values: map<string, V>, m: Metric, key: string, value: V)
    requires MetricStored(scalar, values, m) && Without(key, '_')
    ensures MetricStored(scalar, values[key := value], m)
  {
    assert (m.base + NORM)[|m.base|] == '_' && (m.base + "_raw")[|m.base|] == '_'
        && (m.base + "_weighted")[|m.base|] == '_';
  }

  /** The ten quantities of a utility line. */
  datatype Breakdown<V> = Breakdown(throughputNorm: V, throughput: V, throughputUtility: V, rttNorm: V, rtt: V,
                                    rttUtility: V,
                                    pfcNorm: V, pfc: V, pfcUtility: V, totalUtility: V)

  function Metrics<V>(show: V -> string, b: Breakdown<V>): seq<Metric> {
    [Metric("throughput", show(b.throughputNorm), show(b.throughput), show(b.throughputUtility)),
     Metric("rtt", show(b.rttNorm), show(b.rtt), show(b.rttUtility)),
     Metric("pfc", show(b.pfcNorm), show(b.pfc), show(b.pfcUtility))]
  }

  function UtilityParts<V>(show: V -> string, b: Breakdown<V>): seq<string> {
    seq(3, i requires 0 <= i < 3 => MetricText(Metrics(show, b)[i])) + [KeyValueText("total", show(b.totalUtility))]
  }

  function FormatUtilityLine<V>(show: V -> string, b: Breakdown<V>): string {
    "utility: " + Join(UtilityParts(show, b), ", ")
  }

  /** What follows the first colon of a line, trimmed. */
  function LineContent(line: string): string
    requires Find(line, ':') < |line|
  {
    Trim(line[Find(line, ':') + 1..])
  }

  ghost predicate AllPrinted<V(!new)>(show: V -> string) {
    forall x :: Printed(show(x))
  }

  lemma BasesOk<V(!new)>(show: V -> string, b: Breakdown<V>)
    requires AllPrinted(show)
    ensures AllMetricsOk(Metrics(show, b))
    ensures forall i, j :: 0 <= i < j < 3 ==> Metrics(show, b)[i].base != Metrics(show, b)[j].base
    ensures Key("total") && Without("total", '_')
  {
    ThroughputIsBase();
    ShortBases();
    TotalIsKey();
  }

  lemma ThroughputIsBase()
    ensures IsWord("throughput") && Without("throughput", '_') && "throughput"[0] == 't'
  {
  }

  lemma ShortBases()
    ensures IsWord("rtt") && Without("rtt", '_') && "rtt"[0] == 'r'
    ensures IsWord("pfc") && Without("pfc", '_') && "pfc"[0] == 'p'
  {
  }

  lemma TotalIsKey()
    ensures Key("total") && Without("total", '_')
  {
  }

  // The content of a line starts after the colon and a blank.

  lemma {:induction false} TrimLeftShorter(s: string)
    ensures |TrimLeft(s)| <= |s|
  {
    if s != "" && IsSpace(s[0]) {
      TrimLeftShorter(s[1..]);
    }
  }

  lemma {:induction false} TrimRightShorter(s: string)
    ensures |TrimRight(s)| <= |s|
  {
    if s != "" && IsSpace(s[|s| - 1]) {
      TrimRightShorter(s[..|s| - 1]);
    }
  }

  lemma TrimEnds(s: string)
    requires s != "" && Trim(s) == s
    ensures !IsSpace(s[0]) && !IsSpace(s[|s| - 1])
  {
    TrimLeftShorter(s);
    TrimRightShorter(TrimLeft(s));
    TrimLeftShorter(s[1..]);
    TrimRightShorter(s[..|s| - 1]);
  }

  lemma {:induction false} JoinFirstLast(s: seq<string>)
    requires s != [] && forall i :: 0 <= i < |s| ==> s[i] != ""
    ensures var body := Join(s, ", ");
      body != "" && body[0] == s[0][0] && body[|body| - 1] == s[|s| - 1][|s[|s| - 1]| - 1]
  {
    if |s| > 1 {
      JoinFirstLast(s[1..]);
    }
  }

  lemma ContentOf(prefix: string, segments: seq<string>)
    requires Without(prefix, ':') && segments != [] && Splittable(segments)
    ensures var line := prefix + (": " + Join(segments, ", "));
      Find(line, ':') == |prefix| && LineContent(line) == Join(segments, ", ")
  {
    var body := Join(segments, ", ");
    var line := prefix + (": " + body);
    FindFirst(prefix, ": " + body, ':');
    assert line[|prefix| + 1..] == " " + body;
    assert Segment(segments[0]) && Segment(segments[|segments| - 1]);
    TrimEnds(segments[0]);
    TrimEnds(segments[|segments| - 1]);
    JoinFirstLast(segments);
    TrimmedAlready(body);
  }

  /** The dictionary read from a line holds every metric and the last key. */
  lemma {:induction false} MetricsLine<V>(scalar: string -> V, prefix: string, metrics: seq<Metric>, key: string,
                                          value: string,
                                          parts: seq<string>, values: map<string, V>)
    requires AllMetricsOk(metrics) && Key(key) && Printed(value) && PartsOf(metrics, key, value, parts)
    requires Without(prefix, ':') && Without(key, '_')
    requires forall i, j :: 0 <= i < j < |metrics| ==> metrics[i].base != metrics[j].base
    requires values == MetricMap(scalar, metrics)[key := scalar(value)]
    ensures UtilityContent(scalar, prefix + (": " + Join(parts, ", "))) == values
    ensures forall i :: 0 <= i < |metrics| ==> MetricStored(scalar, values, metrics[i])
  {
    PartsClosed(metrics, key, value, parts);
    ContentOf(prefix, parts);
    LineReadBack(scalar, metrics, key, value, parts);
    forall i | 0 <= i < |metrics| ensures MetricStored(scalar, values, metrics[i]) {
      AllStored(scalar, metrics, i);
      LastStays(scalar, MetricMap(scalar, metrics), metrics[i], key, scalar(value));
    }
  }

  /** A printed utility line is read back with all ten values, each under its own key, and nothing else. */
  lemma UtilityReadBack<V(!new), W>(show: V -> string, scalar: string -> W, b: Breakdown<V>, values: map<string, W>)
    requires AllPrinted(show)
    requires values == UtilityContent(scalar, FormatUtilityLine(show, b))
    ensures values == MetricMap(scalar, Metrics(show, b))["total" := scalar(show(b.totalUtility))]
    ensures forall i :: 0 <= i < 3 ==> MetricStored(scalar, values, Metrics(show, b)[i])
  {
    var metrics, parts, total := Metrics(show, b), UtilityParts(show, b), show(b.totalUtility);
    BasesOk(show, b);
    UtilityPrefix(Join(parts, ", "));
    MetricsLine(scalar, "utility", metrics, "total", total, parts,
        MetricMap(scalar, metrics)["total" := scalar(total)]);
  }

  /** The ten keys and values of a utility line, written out. */
  lemma UtilityKeys<V(!new), W>(show: V -> string, scalar: string -> W, b: Breakdown<V>, values: map<string, W>)
    requires AllPrinted(show)
    requires values == UtilityContent(scalar, FormatUtilityLine(show, b))
    ensures KeyIs(values, "throughput_norm", scalar(show(b.throughputNorm)))
    ensures KeyIs(values, "throughput_raw", scalar(show(b.throughput)))
    ensures KeyIs(values, "throughput_weighted", scalar(show(b.throughputUtility)))
    ensures KeyIs(values, "rtt_norm", scalar(show(b.rttNorm)))
    ensures KeyIs(values, "rtt_raw", scalar(show(b.rtt)))
    ensures KeyIs(values, "rtt_weighted", scalar(show(b.rttUtility)))
    ensures KeyIs(values, "pfc_norm", scalar(show(b.pfcNorm)))
    ensures KeyIs(values, "pfc_raw", scalar(show(b.pfc)))
    ensures KeyIs(values, "pfc_weighted", scalar(show(b.pfcUtility)))
    ensures KeyIs(values, "total", scalar(show(b.totalUtility)))
  {
    UtilityReadBack(show, scalar, b, values);
    var metrics := Metrics(show, b);
    ThroughputKeys();
    RttKeys();
    PfcKeys();
    StoredKeys(scalar, values, metrics[0]);
    StoredKeys(scalar, values, metrics[1]);
    StoredKeys(scalar, values, metrics[2]);
  }

  ghost predicate KeyIs<W>(values: map<string, W>, key: string, w: W) {
    key in values && values[key] == w
  }

  lemma StoredKeys<W>(scalar: string -> W, values: map<string, W>, m: Metric)
    requires MetricStored(scalar, values, m)
    ensures KeyIs(values, m.base + NORM, scalar(m.norm)) && KeyIs(values, m.base + "_raw", scalar(m.raw))
    ensures KeyIs(values, m.base + "_weighted", scalar(m.weighted))
  {
  }

  lemma ThroughputKeys()
    ensures "throughput" + NORM == "throughput_norm" && "throughput" + "_raw" == "throughput_raw"
    ensures "throughput" + "_weighted" == "throughput_weighted"
  {
  }

  lemma RttKeys()
    ensures "rtt" + NORM == "rtt_norm" && "rtt" + "_raw" == "rtt_raw" && "rtt" + "_weighted" == "rtt_weighted"
  {
  }

  lemma PfcKeys()
    ensures "pfc" + NORM == "pfc_norm" && "pfc" + "_raw" == "pfc_raw" && "pfc" + "_weighted" == "pfc_weighted"
  {
  }

  lemma UtilityPrefix(body: string)
    ensures "utility: " + body == "utility" + (": " + body) && Without("utility", ':')
  {
    assert "utility: " == "utility" + ": ";
  }

  /** The dictionary under a line's prefix; empty when there is no colon. */
  ghost function UtilityContent<V>(scalar: string -> V, line: string): map<string, V> {
    if Find(line, ':') == |line| then map[] else UtilityValues(scalar, TopLevelParts(LineContent(line)))
  }
}
