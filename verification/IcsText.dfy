/**
 iCalendar text: TEXT escaping (section 3.3.11 of RFC 5545) and content-line folding (section 3.1), with the
 reader that undoes them. A `string` stands for its UTF-8 octets, one `char` an octet.
 */
module IcsText {

  // ----- Escaping -----

  /** Rust's `str::replace` of a one-octet pattern. */
  function Replace(s: string, c: char, into: string): string
    decreases |s|
  {
    if s == "" then "" else (if s[0] == c then into else [s[0]]) + Replace(s[1..], c, into)
  }

  function EscapeIcsText(text: string): string {
    Replace(Replace(Replace(Replace(Replace(text, '\\', "\\\\"), ';', "\\;"), ',', "\\,"), '\r', ""), '\n', "\\n")
  }

  /** What one octet becomes. */
  function EscapeChar(c: char): string {
    match c
    case '\\' => "\\\\"
    case ';' => "\\;"
    case ',' => "\\,"
    case '\r' => ""
    case '\n' => "\\n"
    case _ => [c]
  }

  function EscapeOnePass(text: string): string {
    if text == "" then "" else EscapeChar(text[0]) + EscapeOnePass(text[1..])
  }

  lemma {:induction false} ReplaceConcat(s: string, t: string, c: char, into: string)
    ensures Replace(s + t, c, into) == Replace(s, c, into) + Replace(t, c, into)
  {
    if s == "" {
      assert s + t == t;
    } else {
      assert (s + t)[0] == s[0] && (s + t)[1..] == s[1..] + t;
      ReplaceConcat(s[1..], t, c, into);
    }
  }

  lemma {:induction false} EscapeConcat(s: string, t: string)
    ensures EscapeIcsText(s + t) == EscapeIcsText(s) + EscapeIcsText(t)
  {
    ReplaceConcat(s, t, '\\', "\\\\");
    var s1, t1 := Replace(s, '\\', "\\\\"), Replace(t, '\\', "\\\\");
    ReplaceConcat(s1, t1, ';', "\\;");
    var s2, t2 := Replace(s1, ';', "\\;"), Replace(t1, ';', "\\;");
    ReplaceConcat(s2, t2, ',', "\\,");
    var s3, t3 := Replace(s2, ',', "\\,"), Replace(t2, ',', "\\,");
    ReplaceConcat(s3, t3, '\r', "");
    ReplaceConcat(Replace(s3, '\r', ""), Replace(t3, '\r', ""), '\n', "\\n");
  }

  lemma ReplaceOne(a: char, c: char, into: string)
    ensures Replace([a], c, into) == if a == c then into else [a]
  {
    assert [a][1..] == "";
  }

  lemma ReplaceTwo(a: char, b: char, c: char, into: string)
    requires a != c && b != c
    ensures Replace([a, b], c, into) == [a, b]
  {
    assert [a, b] == [a] + [b];
    ReplaceConcat([a], [b], c, into);
    ReplaceOne(a, c, into);
    ReplaceOne(b, c, into);
  }

  /** The later replacements do not touch what the earlier ones wrote for one octet. */
  lemma {:induction false} EscapeOne(c: char)
    ensures EscapeIcsText([c]) == EscapeChar(c)
  {
    ReplaceOne(c, '\\', "\\\\");
    ReplaceOne(c, ';', "\\;");
    ReplaceOne(c, ',', "\\,");
    ReplaceOne(c, '\r', "");
    ReplaceOne(c, '\n', "\\n");
    if c == '\\' {
      ReplaceTwo('\\', '\\', ';', "\\;");
      ReplaceTwo('\\', '\\', ',', "\\,");
      ReplaceTwo('\\', '\\', '\r', "");
      ReplaceTwo('\\', '\\', '\n', "\\n");
    } else if c == ';' {
      ReplaceTwo('\\', ';', ',', "\\,");
      ReplaceTwo('\\', ';', '\r', "");
      ReplaceTwo('\\', ';', '\n', "\\n");
    } else if c == ',' {
      ReplaceTwo('\\', ',', '\r', "");
      ReplaceTwo('\\', ',', '\n', "\\n");
    }
  }

  /** The five chained replacements are one pass over the octets. */
  lemma {:induction false} EscapeIsOnePass(text: string)
    ensures EscapeIcsText(text) == EscapeOnePass(text)
  {
    if text != "" {
      assert text == [text[0]] + text[1..];
      EscapeConcat([text[0]], text[1..]);
      EscapeOne(text[0]);
      EscapeIsOnePass(text[1..]);
    }
  }

  /** The reader's unescaping. */
  function Unescape(s: string): string
    decreases |s|
  {
    if s == "" then ""
    else if s[0] == '\\' && |s| >= 2 then
      [if s[1] == 'n' || s[1] == 'N' then '\n' else s[1]] + Unescape(s[2..])
    else [s[0]] + Unescape(s[1..])
  }

  function WithoutCr(s: string): string {
    if s == "" then "" else (if s[0] == '\r' then "" else [s[0]]) + WithoutCr(s[1..])
  }

  /** Unescaping gives back the original, carriage returns aside. */
  lemma {:induction false} UnescapeEscape(text: string)
    ensures Unescape(EscapeIcsText(text)) == WithoutCr(text)
  {
    EscapeIsOnePass(text);
    UnescapeOnePass(text);
  }

  lemma {:induction false} UnescapeOnePass(text: string)
    ensures Unescape(EscapeOnePass(text)) == WithoutCr(text)
  {
    if text != "" {
      UnescapeOnePass(text[1..]);
      UnescapeChar(text[0], EscapeOnePass(text[1..]));
    }
  }

  lemma {:induction false} UnescapeChar(c: char, rest: string)
    ensures Unescape(EscapeChar(c) + rest) == (if c == '\r' then "" else [c]) + Unescape(rest)
  {
    var escaped := EscapeChar(c);
    assert (escaped + rest)[|escaped|..] == rest;
    if escaped == "" {
      assert escaped + rest == rest;
    }
  }

  /** The grammar of a TEXT value: a separator, a backslash or a line break stands only behind a backslash. */
  predicate IsText(s: string)
    decreases |s|
  {
    || s == ""
    || (s[0] == '\\' && |s| >= 2 && s[1] in "\\;,nN" && IsText(s[2..]))
    || (s[0] !in "\\;,\r\n" && IsText(s[1..]))
  }

  /** Whatever the text, its escaping keeps to the grammar. */
  lemma {:induction false} EscapedIsText(text: string)
    ensures IsText(EscapeIcsText(text))
  {
    EscapeIsOnePass(text);
    if text != "" {
      EscapedIsText(text[1..]);
      EscapeIsOnePass(text[1..]);
      EscapedCharIsText(text[0], EscapeOnePass(text[1..]));
    }
  }

  lemma EscapedCharIsText(c: char, rest: string)
    requires IsText(rest)
    ensures IsText(EscapeChar(c) + rest)
  {
    var escaped := EscapeChar(c);
    assert (escaped + rest)[|escaped|..] == rest;
    if escaped == "" {
      assert escaped + rest == rest;
    }
  }

  // ----- Line breaks -----

  const CRLF := "\r\n"
  const LIMIT := 75

  predicate CrlfAt(s: string, i: int) {
    0 <= i && i + 1 < |s| && s[i] == '\r' && s[i + 1] == '\n'
  }

  ghost predicate OneLine(s: string) {
    forall i :: !CrlfAt(s, i)
  }

  predicate IsBlank(c: char) { c == ' ' || c == '\t' }

  /** A printed line may not begin with white space, or a reader takes it for a continuation. */
  predicate StartsLine(s: string) {
    s == "" || !IsBlank(s[0])
  }

  lemma {:induction false} EscapedIsOneLine(text: string)
    ensures forall i | 0 <= i < |EscapeIcsText(text)| ::
        EscapeIcsText(text)[i] != '\r' && EscapeIcsText(text)[i] != '\n'
  {
    EscapeIsOnePass(text);
    if text != "" {
      EscapedIsOneLine(text[1..]);
      EscapeIsOnePass(text[1..]);
    }
  }

  lemma OneLineConcat(s: string, t: string)
    requires OneLine(s) && OneLine(t)
    requires s == "" || t == "" || s[|s| - 1] != '\r' || t[0] != '\n'
    ensures OneLine(s + t)
  {
    forall i ensures !CrlfAt(s + t, i) {
      assert !CrlfAt(s, i) && !CrlfAt(t, i - |s|);
    }
  }

  lemma OneLineSlice(s: string, a: nat, b: nat)
    requires OneLine(s) && a <= b <= |s|
    ensures OneLine(s[a..b])
  {
    forall i ensures !CrlfAt(s[a..b], i) {
      assert !CrlfAt(s, a + i);
    }
  }

  // ----- Folding -----

  /** Pushing the next physical line moves it from what is still to come into the output. */
  lemma PushStep(out: string, lead: string, chunk: string, rest: string)
    ensures (out + lead + chunk + CRLF) + rest == out + ((lead + chunk + CRLF) + rest)
  {
  }

  lemma Regroup(a: string, b: string, c: string)
    ensures (a + b) + c == a + (b + c)
  {
  }

  /** Octet `i` does not continue a multi-octet character. */
  predicate Boundary(line: string, i: nat) {
    i >= |line| || !(0x80 <= line[i] as int < 0xC0)
  }

  /** `from_utf8` of a slice of a UTF-8 string, or nothing if it cuts a character. */
  function Utf8Slice(line: string, start: nat, end: nat): string
    requires start <= end <= |line|
  {
    if Boundary(line, start) && Boundary(line, end) then line[start..end] else ""
  }

  /** Where the chunk that begins at `start` ends: one octet of a later physical line is its leading space. */
  function ChunkEnd(line: string, start: nat, first: bool): (end: nat)
    requires start < |line|
    ensures start < end <= |line|
  {
    var take := if first then LIMIT else LIMIT - 1;
    start + if |line| - start < take then |line| - start else take
  }

  function Chunk(line: string, start: nat, first: bool): string
    requires start < |line|
  {
    Utf8Slice(line, start, ChunkEnd(line, start, first))
  }

  /** One physical line, its CRLF included. */
  function Physical(line: string, start: nat, first: bool): string
    requires start < |line|
  {
    (if first then "" else " ") + Chunk(line, start, first) + CRLF
  }

  function FoldFrom(line: string, start: nat, first: bool): string
    requires start <= |line|
    decreases |line| - start
  {
    if start == |line| then ""
    else Physical(line, start, first) + FoldFrom(line, ChunkEnd(line, start, first), false)
  }

  function Folded(line: string): string {
    if |line| <= LIMIT then line + CRLF else FoldFrom(line, 0, true)
  }

  /** Appends one content line, folded, to the output. */
  method PushLine(out: string, line: string) returns (after: string)
    ensures after == out + Folded(line)
  {
    if |line| <= LIMIT {
      Regroup(out, line, CRLF);
      return out + line + CRLF;
    }
    after := out;
    var start, first := 0, true;
    while start < |line|
      invariant 0 <= start <= |line|
      invariant after + FoldFrom(line, start, first) == out + FoldFrom(line, 0, true)
    {
      var remaining := |line| - start;
      var take := if first then LIMIT else LIMIT - 1;
      var end := start + if remaining < take then remaining else take;
      if first {
        assert after + "" == after;
        PushStep(after, "", Utf8Slice(line, start, end), FoldFrom(line, end, false));
        after := after + Utf8Slice(line, start, end) + CRLF;
        first := false;
      } else {
        PushStep(after, " ", Utf8Slice(line, start, end), FoldFrom(line, end, false));
        after := after + " " + Utf8Slice(line, start, end) + CRLF;
      }
      start := end;
    }
    assert after + "" == after;
  }

  function Print(lines: seq<string>): string {
    if lines == [] then "" else Folded(lines[0]) + Print(lines[1..])
  }

  lemma {:induction false} PrintAppend(lines: seq<string>, more: seq<string>)
    ensures Print(lines + more) == Print(lines) + Print(more)
  {
    if lines == [] {
      assert lines + more == more;
    } else {
      assert (lines + more)[1..] == lines[1..] + more;
      PrintAppend(lines[1..], more);
    }
  }

  // ----- The reader -----

  /** Removes every CRLF that is followed by one white-space octet, together with that octet. */
  function Unfold(s: string): string
    decreases |s|
  {
    if s == "" then ""
    else if CrlfAt(s, 0) && |s| >= 3 && IsBlank(s[2]) then Unfold(s[3..])
    else [s[0]] + Unfold(s[1..])
  }

  /** The first CRLF, or the end. */
  function FirstCrlf(s: string): (i: nat)
    ensures i <= |s| && (i < |s| ==> CrlfAt(s, i)) && forall j | 0 <= j < i :: !CrlfAt(s, j)
  {
    if s == "" || CrlfAt(s, 0) then 0
    else
      var i := FirstCrlf(s[1..]);
      assert forall j | 1 <= j < i + 1 :: CrlfAt(s, j) ==> CrlfAt(s[1..], j - 1);
      assert i < |s[1..]| ==> CrlfAt(s[1..], i);
      i + 1
  }

  /** Splits at CRLF. */
  function SplitLines(s: string): (lines: seq<string>)
    decreases |s|
  {
    if s == "" then []
    else
      var i := FirstCrlf(s);
      if i == |s| then [s] else [s[..i]] + SplitLines(s[i + 2..])
  }

  function ReadLines(text: string): seq<string> {
    SplitLines(Unfold(text))
  }

  function Join(lines: seq<string>): string {
    if lines == [] then "" else lines[0] + CRLF + Join(lines[1..])
  }

  // ----- What survives folding and unfolding -----

  /** The chunks of `line` from `start` on that `from_utf8` accepts. */
  function KeptFrom(line: string, start: nat, first: bool): string
    requires start <= |line|
    decreases |line| - start
  {
    if start == |line| then ""
    else Chunk(line, start, first) + KeptFrom(line, ChunkEnd(line, start, first), false)
  }

  function Kept(line: string): string {
    if |line| <= LIMIT then line else KeptFrom(line, 0, true)
  }

  function KeptAll(lines: seq<string>): (kept: seq<string>)
    ensures |kept| == |lines|
  {
    if lines == [] then [] else [Kept(lines[0])] + KeptAll(lines[1..])
  }

  lemma ChunkIsOneLine(line: string, start: nat, first: bool)
    requires OneLine(line) && start < |line|
    ensures OneLine(Chunk(line, start, first)) && OneLine(" " + Chunk(line, start, first))
  {
    var end := ChunkEnd(line, start, first);
    OneLineSlice(line, start, end);
    OneLineConcat(" ", Chunk(line, start, first));
  }

  lemma {:induction false} UnfoldText(text: string, rest: string)
    requires OneLine(text)
    ensures Unfold(text + CRLF + rest) == text + Unfold(CRLF + rest)
  {
    var all := text + CRLF + rest;
    if text == "" {
      assert all == CRLF + rest;
    } else {
      assert !CrlfAt(text, 0);
      assert !CrlfAt(all, 0);
      OneLineSlice(text, 1, |text|);
      assert text[1..|text|] == text[1..];
      assert all[1..] == text[1..] + CRLF + rest;
      UnfoldText(text[1..], rest);
    }
  }

  lemma {:induction false} UnfoldBreak(rest: string)
    requires StartsLine(rest)
    ensures Unfold(CRLF + rest) == CRLF + Unfold(rest)
  {
    var all := CRLF + rest;
    assert all[1..][1..] == rest;
    assert all[1..][0] == '\n';
  }

  lemma {:induction false} UnfoldContinuation(rest: string)
    ensures Unfold(CRLF + (" " + rest)) == Unfold(rest)
  {
    var all := CRLF + (" " + rest);
    assert all[3..] == rest;
  }

  /** One step of the folding, with what follows it. */
  lemma FoldStep(line: string, start: nat, first: bool, rest: string)
    requires start < |line|
    ensures FoldFrom(line, start, first) + rest
         == (if first then "" else " ")
          + (Chunk(line, start, first) + CRLF + (FoldFrom(line, ChunkEnd(line, start, first), false) + rest))
  {
    var tail := FoldFrom(line, ChunkEnd(line, start, first), false);
    Regroup(Physical(line, start, first), tail, rest);
    var lead, body := if first then "" else " ", Chunk(line, start, first) + CRLF;
    assert Physical(line, start, first) == lead + body;
    Regroup(lead, body, tail + rest);
  }

  /** The reader glues the later chunks back on. */
  lemma {:induction false} UnfoldTail(line: string, start: nat, rest: string)
    requires OneLine(line) && start <= |line| && StartsLine(rest)
    ensures Unfold(CRLF + (FoldFrom(line, start, false) + rest)) == KeptFrom(line, start, false) + (CRLF + Unfold(rest))
    decreases |line| - start
  {
    if start == |line| {
      assert FoldFrom(line, start, false) + rest == rest;
      UnfoldBreak(rest);
    } else {
      var tail := FoldFrom(line, ChunkEnd(line, start, false), false) + rest;
      FoldStep(line, start, false, rest);
      UnfoldContinuation(Chunk(line, start, false) + CRLF + tail);
      UnfoldFolded(line, start, false, rest);
    }
  }

  lemma {:induction false} UnfoldFolded(line: string, start: nat, first: bool, rest: string)
    requires OneLine(line) && start < |line| && StartsLine(rest)
    ensures Unfold(Chunk(line, start, first) + CRLF + (FoldFrom(line, ChunkEnd(line, start, first), false) + rest))
         == KeptFrom(line, start, first) + (CRLF + Unfold(rest))
    decreases |line| - start, 0
  {
    var end := ChunkEnd(line, start, first);
    ChunkIsOneLine(line, start, first);
    UnfoldText(Chunk(line, start, first), FoldFrom(line, end, false) + rest);
    UnfoldTail(line, end, rest);
    Regroup(Chunk(line, start, first), KeptFrom(line, end, false), CRLF + Unfold(rest));
  }

  lemma {:induction false} UnfoldLine(line: string, rest: string)
    requires OneLine(line) && StartsLine(rest)
    ensures Unfold(Folded(line) + rest) == Kept(line) + CRLF + Unfold(rest)
  {
    if |line| <= LIMIT {
      UnfoldText(line, rest);
      UnfoldBreak(rest);
    } else {
      FoldStep(line, 0, true, rest);
      var body := Chunk(line, 0, true) + CRLF + (FoldFrom(line, ChunkEnd(line, 0, true), false) + rest);
      assert "" + body == body;
      UnfoldFolded(line, 0, true, rest);
    }
    Regroup(Kept(line), CRLF, Unfold(rest));
  }

  ghost predicate Printable(lines: seq<string>) {
    forall line <- lines :: StartsLine(line)
  }

  ghost predicate AllOneLine(lines: seq<string>) {
    forall line <- lines :: OneLine(line)
  }

  lemma PrintStartsLine(lines: seq<string>)
    requires Printable(lines)
    ensures StartsLine(Print(lines))
  {
    if lines != [] && lines[0] != "" {
      assert StartsLine(lines[0]);
      assert Folded(lines[0])[0] == lines[0][0] || Folded(lines[0])[0] == '\r';
    }
  }

  /** Unfolding the whole output leaves the kept parts of the lines, each ended by CRLF. */
  lemma {:induction false} UnfoldPrint(lines: seq<string>)
    requires Printable(lines) && AllOneLine(lines)
    ensures Unfold(Print(lines)) == Join(KeptAll(lines))
  {
    if lines != [] {
      var rest := lines[1..];
      PrintStartsLine(rest);
      assert OneLine(lines[0]);
      UnfoldLine(lines[0], Print(rest));
      UnfoldPrint(rest);
      assert KeptAll(lines)[1..] == KeptAll(rest);
    }
  }

  // ----- Splitting and joining -----

  lemma {:induction false} SplitHead(line: string, rest: string)
    requires OneLine(line)
    ensures SplitLines(line + CRLF + rest) == [line] + SplitLines(rest)
  {
    var all := line + CRLF + rest;
    assert CrlfAt(all, |line|);
    assert forall j | 0 <= j < |line| :: CrlfAt(all, j) ==> CrlfAt(line, j);
    var i := FirstCrlf(all);
    assert i == |line|;
    assert all[..i] == line && all[i + 2..] == rest;
  }

  lemma {:induction false} SplitJoin(lines: seq<string>)
    requires AllOneLine(lines)
    ensures SplitLines(Join(lines)) == lines
  {
    if lines != [] {
      assert OneLine(lines[0]);
      SplitHead(lines[0], Join(lines[1..]));
      SplitJoin(lines[1..]);
    }
  }

  lemma {:induction false} SplitIsOneLine(s: string)
    ensures AllOneLine(SplitLines(s))
    decreases |s|
  {
    if s != "" {
      var i := FirstCrlf(s);
      if i == |s| {
        assert OneLine(s);
      } else {
        assert OneLine(s[..i]) by {
          forall j ensures !CrlfAt(s[..i], j) {
            assert CrlfAt(s[..i], j) ==> CrlfAt(s, j);
          }
        }
        SplitIsOneLine(s[i + 2..]);
      }
    }
  }

  predicate Terminated(s: string) {
    s == "" || (|s| >= 2 && s[|s| - 2..] == CRLF)
  }

  lemma {:induction false} JoinTerminated(lines: seq<string>)
    ensures Terminated(Join(lines))
  {
    if lines != [] {
      JoinTerminated(lines[1..]);
      var all := Join(lines);
      if lines[1..] == [] {
        assert all == lines[0] + CRLF;
      } else {
        assert all[|all| - 2..] == Join(lines[1..])[|Join(lines[1..])| - 2..];
      }
    }
  }

  lemma TerminatedRest(s: string)
    requires s != "" && Terminated(s)
    ensures CrlfAt(s, FirstCrlf(s)) && Terminated(s[FirstCrlf(s) + 2..])
    ensures s == s[..FirstCrlf(s)] + CRLF + s[FirstCrlf(s) + 2..]
  {
    var i := FirstCrlf(s);
    assert s[|s| - 2] == s[|s| - 2..][0] && s[|s| - 1] == s[|s| - 2..][1];
    assert CrlfAt(s, |s| - 2);
    var rest := s[i + 2..];
    if rest != "" {
      assert i + 2 != |s| - 1;
      assert rest[|rest| - 2..] == s[|s| - 2..];
    }
  }

  lemma {:induction false} JoinSplit(s: string)
    requires Terminated(s)
    ensures Join(SplitLines(s)) == s
    decreases |s|
  {
    if s != "" {
      var i := FirstCrlf(s);
      TerminatedRest(s);
      JoinSplit(s[i + 2..]);
    }
  }

  // ----- When folding loses nothing -----

  /** Where `line` is cut: before octets 0, 75, 149, 223, ... */
  function Cut(k: nat): nat {
    if k == 0 then 0 else (LIMIT - 1) * k + 1
  }

  /** No cut falls inside a multi-octet character. */
  ghost predicate CleanCuts(line: string) {
    |line| <= LIMIT || CleanFrom(line, 0)
  }

  ghost predicate CleanFrom(line: string, k: nat) {
    forall j: nat | j >= k && Cut(j) <= |line| :: Boundary(line, Cut(j))
  }

  /** A folded line comes back whole exactly when every cut is clean, and shorter otherwise. */
  lemma {:induction false} KeptTail(line: string, k: nat)
    requires Cut(k) <= |line|
    ensures var kept := KeptFrom(line, Cut(k), k == 0);
      |kept| <= |line| - Cut(k)
      && (|kept| == |line| - Cut(k) <==> CleanFrom(line, k))
      && (CleanFrom(line, k) ==> kept == line[Cut(k)..])
    decreases |line| - Cut(k)
  {
    var start := Cut(k);
    if start == |line| {
      forall j: nat | j >= k && Cut(j) <= |line| ensures Boundary(line, Cut(j)) {
        assert Cut(j) >= Cut(k);
      }
    } else {
      var end := ChunkEnd(line, start, k == 0);
      var kept := KeptFrom(line, end, false);
      if Cut(k + 1) <= |line| {
        assert end == Cut(k + 1);
        KeptTail(line, k + 1);
      } else {
        assert end == |line| && kept == "";
        assert forall j: nat | j >= k + 1 :: Cut(j) >= Cut(k + 1);
        assert CleanFrom(line, k + 1);
      }
      assert CleanFrom(line, k) <==> Boundary(line, start) && CleanFrom(line, k + 1) by {
        assert forall j: nat | j >= k && Cut(j) <= |line| :: j == k || j >= k + 1;
        assert CleanFrom(line, k) ==> Boundary(line, Cut(k));
      }
      assert CleanFrom(line, k + 1) ==> Boundary(line, end) by {
        if Cut(k + 1) <= |line| && CleanFrom(line, k + 1) {
          assert Boundary(line, Cut(k + 1));
        }
      }
      assert line[start..end] + line[end..] == line[start..];
    }
  }

  lemma {:induction false} KeptMeaning(line: string)
    ensures |Kept(line)| <= |line|
    ensures |Kept(line)| == |line| <==> CleanCuts(line)
    ensures CleanCuts(line) ==> Kept(line) == line
  {
    if |line| > LIMIT {
      KeptTail(line, 0);
      assert line[0..] == line;
    }
  }

  ghost predicate AllClean(lines: seq<string>) {
    forall line <- lines :: CleanCuts(line)
  }

  lemma {:induction false} KeptAllMeaning(lines: seq<string>)
    ensures |Join(KeptAll(lines))| <= |Join(lines)|
    ensures |Join(KeptAll(lines))| == |Join(lines)| <==> AllClean(lines)
    ensures AllClean(lines) ==> KeptAll(lines) == lines
  {
    if lines != [] {
      KeptMeaning(lines[0]);
      KeptAllMeaning(lines[1..]);
      assert KeptAll(lines)[1..] == KeptAll(lines[1..]);
      assert AllClean(lines) <==> CleanCuts(lines[0]) && AllClean(lines[1..]) by {
        assert lines == [lines[0]] + lines[1..];
      }
    }
  }

  /**
   The reader gets back exactly the lines that were pushed, for every sequence of lines that begin with something
   other than white space, just when no line holds a CRLF of its own and no fold cuts a character.
   */
  lemma {:induction false} ReadsBackIff(lines: seq<string>)
    requires Printable(lines)
    ensures ReadLines(Print(lines)) == lines <==> AllOneLine(lines) && AllClean(lines)
  {
    if ReadLines(Print(lines)) == lines {
      SplitIsOneLine(Unfold(Print(lines)));
      UnfoldPrint(lines);
      JoinTerminated(KeptAll(lines));
      JoinSplit(Join(KeptAll(lines)));
      KeptAllMeaning(lines);
    } else if AllOneLine(lines) && AllClean(lines) {
      UnfoldPrint(lines);
      KeptAllMeaning(lines);
      SplitJoin(lines);
    }
  }

  predicate Ascii(s: string) {
    forall c <- s :: c as int < 0x80
  }

  /** Folding never cuts a character of an ASCII line. */
  lemma AsciiIsClean(line: string)
    requires Ascii(line)
    ensures CleanCuts(line)
  {
    forall i: nat ensures Boundary(line, i) {
      assert i < |line| ==> line[i] in line;
    }
  }

  // ----- Physical lines -----

  ghost predicate Short(lines: seq<string>) {
    forall line <- lines :: |line| <= LIMIT
  }

  lemma {:induction false} FoldFromIsShort(line: string, start: nat, first: bool, rest: string)
    requires OneLine(line) && start <= |line|
    requires Short(SplitLines(rest))
    ensures Short(SplitLines(FoldFrom(line, start, first) + rest))
    decreases |line| - start
  {
    if start == |line| {
      assert FoldFrom(line, start, first) + rest == rest;
    } else {
      var end := ChunkEnd(line, start, first);
      FoldFromIsShort(line, end, false, rest);
      Regroup(Physical(line, start, first), FoldFrom(line, end, false), rest);
      PhysicalIsShort(line, start, first, FoldFrom(line, end, false) + rest);
    }
  }

  lemma {:induction false} PhysicalIsShort(line: string, start: nat, first: bool, rest: string)
    requires OneLine(line) && start < |line|
    requires Short(SplitLines(rest))
    ensures Short(SplitLines(Physical(line, start, first) + rest))
  {
    ChunkIsOneLine(line, start, first);
    var text := (if first then "" else " ") + Chunk(line, start, first);
    assert first ==> text == Chunk(line, start, first);
    SplitHead(text, rest);
  }

  /** Every physical line is at most 75 octets long, whatever the lines hold besides CRLF. */
  lemma {:induction false} PhysicalLinesAreShort(lines: seq<string>)
    requires AllOneLine(lines)
    ensures Short(SplitLines(Print(lines)))
  {
    if lines != [] {
      var line := lines[0];
      assert OneLine(line);
      PhysicalLinesAreShort(lines[1..]);
      if |line| <= LIMIT {
        SplitHead(line, Print(lines[1..]));
      } else {
        FoldFromIsShort(line, 0, true, Print(lines[1..]));
      }
    }
  }
}
