/**
 The text chunker (`internal/rag/service.go`), on runes.

 Lines are trimmed, blank ones dropped, and the rest merged into blocks; a block that is too long is
 cut into overlapping windows.  `ChunksDetermined` says that this fixes the chunks, `ChunkLosesNothing`
 that the lines can be put back together.
 */
module Chunkers {
  import opened Wrappers

  const DEFAULT_CHUNK_SIZE := 600

  type Text = string

  /** `unicode.IsSpace`. */
  predicate IsSpace(c: char) {
    || '\t' <= c <= '\r' || c == ' ' || c == '\U{0085}' || c == '\U{00A0}' || c == '\U{1680}'
    || '\U{2000}' <= c <= '\U{200A}' || c == '\U{2028}' || c == '\U{2029}' || c == '\U{202F}'
    || c == '\U{205F}' || c == '\U{3000}'
  }

  // ---------- Trimming ----------

  function TrimLeft(s: Text): (r: Text)
    ensures |r| <= |s| && (r != "" ==> !IsSpace(r[0]))
  {
    if s != "" && IsSpace(s[0]) then TrimLeft(s[1..]) else s
  }

  function TrimRight(s: Text): (r: Text)
    ensures |r| <= |s| && (r != "" ==> !IsSpace(r[|r| - 1]))
    ensures s != "" && !IsSpace(s[0]) ==> r != "" && r[0] == s[0]
  {
    if s != "" && IsSpace(s[|s| - 1]) then TrimRight(s[..|s| - 1]) else s
  }

  /** `strings.TrimSpace`. */
  function Trim(s: Text): Text {
    TrimRight(TrimLeft(s))
  }

  ghost predicate Trimmed(s: Text) {
    s != "" && !IsSpace(s[0]) && !IsSpace(s[|s| - 1])
  }

  ghost predicate AllSpace(s: Text) {
    forall i :: 0 <= i < |s| ==> IsSpace(s[i])
  }

  lemma {:induction false} TrimLeftDrops(s: Text)
    ensures |TrimLeft(s)| <= |s| && s[|s| - |TrimLeft(s)|..] == TrimLeft(s) && AllSpace(s[..|s| - |TrimLeft(s)|])
  {
    if s != "" && IsSpace(s[0]) {
      TrimLeftDrops(s[1..]);
      var n := |s| - |TrimLeft(s)|;
      assert s[..n] == [s[0]] + s[1..][..n - 1];
    }
  }

  lemma {:induction false} TrimRightDrops(s: Text)
    ensures |TrimRight(s)| <= |s| && s[..|TrimRight(s)|] == TrimRight(s) && AllSpace(s[|TrimRight(s)|..])
  {
    if s != "" && IsSpace(s[|s| - 1]) {
      var init := s[..|s| - 1];
      TrimRightDrops(init);
      var n := |TrimRight(s)|;
      assert s[..n] == init[..n] && s[n..] == init[n..] + [s[|s| - 1]];
    } else {
      assert s[..|s|] == s;
    }
  }

  /** Trimming takes away white space at both ends, and all of it. */
  lemma TrimDrops(s: Text) returns (front: Text, back: Text)
    ensures s == front + Trim(s) + back && AllSpace(front) && AllSpace(back)
    ensures Trim(s) == "" || Trimmed(Trim(s))
  {
    var t := TrimLeft(s);
    TrimLeftDrops(s);
    TrimRightDrops(t);
    TrimGivesTrimmed(s);
    assert Trim(s) == TrimRight(t);
    hide *;
    var n, m := |s| - |t|, |Trim(s)|;
    front, back := s[..n], t[m..];
    assert s == s[..n] + s[n..] && t == t[..m] + t[m..];
  }

  lemma TrimGivesTrimmed(s: Text)
    ensures Trim(s) == "" || Trimmed(Trim(s))
  {
  }

  lemma TrimmedStays(s: Text)
    requires Trimmed(s)
    ensures Trim(s) == s
  {
  }

  lemma {:induction false} TrimRightSpace(s: Text)
    requires forall i :: 0 <= i < |s| ==> IsSpace(s[i])
    ensures TrimRight(s) == ""
  {
    if s != "" { TrimRightSpace(s[..|s| - 1]); }
  }

  /** A space at the end does not matter, whatever stands at the front. */
  lemma {:induction false} TrimSnoc(s: Text, c: char)
    requires IsSpace(c)
    ensures Trim(s + [c]) == Trim(s)
  {
    if s == "" {
      assert s + [c] == [c];
      assert TrimLeft([c]) == TrimLeft([c][1..]);
    } else if IsSpace(s[0]) {
      assert (s + [c])[1..] == s[1..] + [c];
      TrimSnoc(s[1..], c);
    } else {
      assert (s + [c])[..|s|] == s;
    }
  }

  // ---------- Lines ----------

  /** `strings.Split(text, "\n")`. */
  function Lines(t: Text): (r: seq<Text>)
    ensures r != []
  {
    if t == "" then [""]
    else if t[0] == '\n' then [""] + Lines(t[1..])
    else var rest := Lines(t[1..]); [[t[0]] + rest[0]] + rest[1..]
  }

  ghost predicate OneLine(s: Text) {
    forall i :: 0 <= i < |s| ==> s[i] != '\n'
  }

  /** The lines contain no line break, and joined with line breaks they are the text. */
  lemma {:induction false} LinesJoin(t: Text)
    ensures Join(Lines(t), "\n") == t
    ensures forall i :: 0 <= i < |Lines(t)| ==> OneLine(Lines(t)[i])
  {
    if t != "" {
      var rest := Lines(t[1..]);
      LinesJoin(t[1..]);
      assert t == [t[0]] + t[1..];
      if t[0] == '\n' {
        JoinConcat([""], rest, "\n");
        assert "" + "\n" + Join(rest, "\n") == ['\n'] + t[1..];
      } else {
        JoinFront([t[0]], rest, "\n");
      }
    } else {
      assert Lines(t) == [""];
    }
  }

  /** Text put in front of the first part is put in front of the whole. */
  lemma {:induction false} JoinFront(a: Text, parts: seq<Text>, separator: Text)
    requires parts != []
    ensures Join([a + parts[0]] + parts[1..], separator) == a + Join(parts, separator)
  {
    if |parts| == 1 {
      assert [a + parts[0]] + parts[1..] == [a + parts[0]];
    } else {
      assert parts == [parts[0]] + parts[1..];
      JoinConcat([parts[0]], parts[1..], separator);
      JoinConcat([a + parts[0]], parts[1..], separator);
      assert (a + parts[0]) + separator + Join(parts[1..], separator)
        == a + (parts[0] + separator + Join(parts[1..], separator));
    }
  }

  /** The trimmed lines that are not blank. */
  function Kept(lines: seq<Text>): seq<Text> {
    if lines == [] then []
    else
      var last := Trim(lines[|lines| - 1]);
      Kept(lines[..|lines| - 1]) + if last == "" then [] else [last]
  }

  lemma KeptSnocLine(lines: seq<Text>, i: nat)
    requires i < |lines|
    ensures Kept(lines[..i + 1]) ==
      if Trim(lines[i]) == "" then Kept(lines[..i]) else Kept(lines[..i]) + [Trim(lines[i])]
  {
    assert lines[..i + 1][..i] == lines[..i];
  }

  lemma {:induction false} KeptConcat(a: seq<Text>, b: seq<Text>)
    ensures Kept(a + b) == Kept(a) + Kept(b)
  {
    if b == [] {
      assert a + b == a;
    } else {
      assert (a + b)[..|a + b| - 1] == a + b[..|b| - 1];
      KeptConcat(a, b[..|b| - 1]);
    }
  }

  lemma KeptOne(s: Text)
    ensures Kept([s]) == if Trim(s) == "" then [] else [Trim(s)]
  {
    assert [s][..0] == [];
  }

  lemma KeptBlankFirst(lines: seq<Text>)
    ensures Kept([""] + lines) == Kept(lines)
  {
    KeptConcat([""], lines);
    KeptOne("");
    hide Kept;
  }

  lemma KeptSpaceFirst(c: char, lines: seq<Text>)
    requires IsSpace(c) && lines != []
    ensures Kept([[c] + lines[0]] + lines[1..]) == Kept(lines)
  {
    var first := lines[0];
    assert lines == [first] + lines[1..];
    assert ([c] + first)[1..] == first;
    assert Trim([c] + first) == Trim(first);
    KeptConcat([first], lines[1..]);
    KeptConcat([[c] + first], lines[1..]);
    KeptOne(first);
    KeptOne([c] + first);
    hide *;
  }

  /** Leading white space of the text changes no kept line. */
  lemma {:induction false} KeptIgnoresLeading(t: Text)
    ensures Kept(Lines(TrimLeft(t))) == Kept(Lines(t))
  {
    hide Kept, IsSpace;
    if t != "" && IsSpace(t[0]) {
      KeptIgnoresLeading(t[1..]);
      if t[0] == '\n' {
        KeptBlankFirst(Lines(t[1..]));
      } else {
        KeptSpaceFirst(t[0], Lines(t[1..]));
      }
    }
  }

  /** The lines with one more character at the end of the text. */
  function Grown(lines: seq<Text>, c: char): seq<Text>
    requires lines != []
  {
    if c == '\n' then lines + [""] else lines[..|lines| - 1] + [lines[|lines| - 1] + [c]]
  }

  /** Putting a character in front and one at the end commute. */
  lemma GrownFront(a: char, rest: seq<Text>, c: char)
    requires rest != []
    ensures [""] + Grown(rest, c) == Grown([""] + rest, c)
    ensures [[a] + Grown(rest, c)[0]] + Grown(rest, c)[1..] == Grown([[a] + rest[0]] + rest[1..], c)
  {
    var n := |rest| - 1;
    if c == '\n' {
      assert (rest + [""])[1..] == rest[1..] + [""];
    } else if n == 0 {
      assert [a] + (rest[0] + [c]) == ([a] + rest[0]) + [c];
      assert rest == [rest[0]] && Grown(rest, c) == [rest[0] + [c]];
    } else {
      assert Grown(rest, c)[1..] == rest[1..n] + [rest[n] + [c]];
      assert ([[a] + rest[0]] + rest[1..])[..n] == [[a] + rest[0]] + rest[1..n];
    }
  }

  lemma {:induction false} LinesSnoc(t: Text, c: char)
    ensures Lines(t + [c]) == Grown(Lines(t), c)
  {
    if t == "" {
      assert t + [c] == [c] && [c][1..] == "";
      assert [c] + "" == "" + [c];
    } else {
      assert (t + [c])[1..] == t[1..] + [c];
      LinesSnoc(t[1..], c);
      GrownFront(t[0], Lines(t[1..]), c);
      hide Grown;
    }
  }

  lemma KeptSnoc(t: Text, c: char)
    requires IsSpace(c)
    ensures Kept(Lines(t + [c])) == Kept(Lines(t))
  {
    LinesSnoc(t, c);
    var lines := Lines(t);
    var init, last := lines[..|lines| - 1], lines[|lines| - 1];
    assert lines == init + [last];
    if c == '\n' {
      KeptConcat(lines, [""]);
      KeptOne("");
    } else {
      KeptConcat(init, [last]);
      KeptConcat(init, [last + [c]]);
      KeptOne(last);
      KeptOne(last + [c]);
      TrimSnoc(last, c);
    }
  }

  lemma {:induction false} KeptIgnoresTrailing(t: Text)
    ensures Kept(Lines(TrimRight(t))) == Kept(Lines(t))
  {
    hide Kept, Lines, IsSpace;
    if t != "" && IsSpace(t[|t| - 1]) {
      var init, c := t[..|t| - 1], t[|t| - 1];
      KeptIgnoresTrailing(init);
      KeptSnoc(init, c);
      assert t == init + [c];
    }
  }

  lemma KeptIgnoresTrim(t: Text)
    ensures Kept(Lines(Trim(t))) == Kept(Lines(t))
  {
    KeptIgnoresLeading(t);
    KeptIgnoresTrailing(TrimLeft(t));
  }

  // ---------- Blocks ----------

  function JoinLines(lines: seq<Text>): Text {
    Join(lines, "\n")
  }

  lemma {:induction false} JoinTrimmed(parts: seq<Text>)
    requires parts != [] && forall i :: 0 <= i < |parts| ==> Trimmed(parts[i])
    ensures Trimmed(JoinLines(parts))
  {
    if |parts| > 1 { JoinTrimmed(parts[..|parts| - 1]); }
  }

  function Flatten(groups: seq<seq<Text>>): seq<Text> {
    if groups == [] then [] else groups[0] + Flatten(groups[1..])
  }

  lemma {:induction false} FlattenSnoc(groups: seq<seq<Text>>, g: seq<Text>)
    ensures Flatten(groups + [g]) == Flatten(groups) + g
  {
    if groups == [] {
      assert groups + [g] == [g] && [g][1..] == [];
      assert g + [] == g == [] + g;
    } else {
      FlattenSnoc(groups[1..], g);
      assert (groups + [g])[1..] == groups[1..] + [g];
    }
  }

  function Runes(lines: seq<Text>): nat {
    if lines == [] then 0 else Runes(lines[..|lines| - 1]) + |lines[|lines| - 1]|
  }

  lemma RunesSnoc(lines: seq<Text>, u: Text)
    ensures Runes(lines + [u]) == Runes(lines) + |u|
  {
    assert (lines + [u])[..|lines|] == lines;
  }

  lemma {:induction false} RunesPrefix(lines: seq<Text>, n: nat)
    requires n < |lines|
    ensures Runes(lines[..n]) + |lines[n]| <= Runes(lines)
  {
    if n < |lines| - 1 {
      RunesPrefix(lines[..|lines| - 1], n);
      assert lines[..|lines| - 1][..n] == lines[..n];
    }
  }

  /** The first line of part `j` did not fit into part `i`. */
  ghost predicate Full(parts: seq<seq<Text>>, i: nat, j: nat, size: nat)
    requires i < |parts| && j < |parts| && parts[j] != []
  {
    Runes(parts[i]) + |parts[j][0]| > size
  }

  /** Each part takes as many lines as fit, and at least one. */
  ghost predicate Greedy(parts: seq<seq<Text>>, size: nat) {
    && (forall i :: 0 <= i < |parts| ==> parts[i] != [] && (|parts[i]| == 1 || Runes(parts[i]) <= size))
    && (forall i, j :: 0 <= i < j < |parts| && j == i + 1 ==> Full(parts, i, j, size))
  }

  ghost predicate Merged(kept: seq<Text>, parts: seq<seq<Text>>, size: nat) {
    Flatten(parts) == kept && Greedy(parts, size)
  }

  lemma GrowPart(kept: seq<Text>, parts: seq<seq<Text>>, open: seq<Text>, u: Text, size: nat)
    requires Merged(kept, parts + [open], size) && Runes(open) + |u| <= size
    ensures Merged(kept + [u], parts + [open + [u]], size)
  {
    var a, b := parts + [open], parts + [open + [u]];
    FlattenSnoc(parts, open);
    FlattenSnoc(parts, open + [u]);
    RunesSnoc(open, u);
    assert a[|parts|] == open && b[|parts|] == open + [u] && open != [];
    assert forall k :: 0 <= k < |parts| ==> b[k] == a[k];
    hide Flatten, Runes;
    forall i, j | 0 <= i < j < |b| && j == i + 1 ensures Full(b, i, j, size) { assert Full(a, i, j, size); }
  }

  lemma StartPart(kept: seq<Text>, parts: seq<seq<Text>>, u: Text, size: nat)
    requires Merged(kept, parts, size) && (parts != [] ==> Runes(parts[|parts| - 1]) + |u| > size)
    ensures Merged(kept + [u], parts + [[u]], size)
  {
    FlattenSnoc(parts, [u]);
    var b := parts + [[u]];
    hide Flatten, Runes;
    forall i, j | 0 <= i < j < |b| && j == i + 1
      ensures Full(b, i, j, size)
    {
      assert j < |parts| ==> Full(parts, i, j, size);
    }
  }

  lemma AfterFirst(p: seq<seq<Text>>, size: nat)
    requires p != [] && Greedy(p, size)
    ensures p[0] != [] && |p[0]| <= |Flatten(p)| && Flatten(p)[..|p[0]|] == p[0]
    ensures if |p| == 1 then Flatten(p) == p[0] else |Flatten(p)| > |p[0]| && Flatten(p)[|p[0]|] == p[1][0]
  {
    assert |p| > 1 ==> p[1..][0] == p[1];
  }

  /** Of two greedy ways to merge the same lines, neither has a shorter first part. */
  lemma FirstPart(p: seq<seq<Text>>, q: seq<seq<Text>>, size: nat)
    requires p != [] && q != [] && Flatten(p) == Flatten(q) && Greedy(p, size) && Greedy(q, size)
    ensures |q[0]| <= |p[0]|
  {
    var n := |p[0]|;
    AfterFirst(p, size);
    AfterFirst(q, size);
    assert |p| > 1 ==> Full(p, 0, 1, size);
    assert |q[0]| == 1 || Runes(q[0]) <= size;
    hide Flatten, Greedy, Runes;
    assert n < |q[0]| ==> Flatten(q)[n] == q[0][n] && p[0] == q[0][..n];
    if n < |q[0]| {
      RunesPrefix(q[0], n);
    }
  }

  /** There is only one greedy way to merge. */
  lemma {:induction false} MergedOnce(p: seq<seq<Text>>, q: seq<seq<Text>>, size: nat)
    requires Flatten(p) == Flatten(q) && Greedy(p, size) && Greedy(q, size)
    ensures p == q
  {
    if p != [] { AfterFirst(p, size); }
    if q != [] { AfterFirst(q, size); }
    if p != [] && q != [] {
      FirstPart(p, q, size);
      FirstPart(q, p, size);
      assert p[0] == Flatten(p)[..|p[0]|] == q[0];
      assert Flatten(p[1..]) == Flatten(p)[|p[0]|..] == Flatten(q[1..]);
      GreedyTail(p, size);
      GreedyTail(q, size);
      MergedOnce(p[1..], q[1..], size);
      assert p == [p[0]] + p[1..] && q == [q[0]] + q[1..];
    }
  }

  lemma GreedyTail(p: seq<seq<Text>>, size: nat)
    requires p != [] && Greedy(p, size)
    ensures Greedy(p[1..], size)
  {
    var tail := p[1..];
    hide Runes;
    forall i, j | 0 <= i < j < |tail| && j == i + 1
      ensures Full(tail, i, j, size)
    {
      assert Full(p, i + 1, j + 1, size);
    }
  }

  /** Two lines share a block iff they fit without the line break between them. */
  lemma TwoLines(u: Text, v: Text, parts: seq<seq<Text>>, size: nat)
    requires Merged([u, v], parts, size)
    ensures parts == if |u| + |v| <= size then [[u, v]] else [[u], [v]]
  {
    var q := if |u| + |v| <= size then [[u, v]] else [[u], [v]];
    assert Flatten(q) == [u, v] by {
      assert Flatten([[v]]) == [v] && [[u], [v]][1..] == [[v]];
      assert Flatten([[u, v]]) == [u, v];
    }
    RunesSnoc([], u);
    RunesSnoc([u], v);
    assert [] + [u] == [u] && [u] + [v] == [u, v];
    assert |u| + |v| > size ==> Full([[u], [v]], 0, 1, size);
    assert Greedy(q, size);
    hide Flatten, Runes, Greedy;
    MergedOnce(parts, q, size);
  }

  function Blocks(parts: seq<seq<Text>>): seq<Text> {
    seq(|parts|, i requires 0 <= i < |parts| => JoinLines(parts[i]))
  }

  lemma BlocksSnoc(parts: seq<seq<Text>>, p: seq<Text>)
    ensures Blocks(parts + [p]) == Blocks(parts) + [JoinLines(p)]
  {
  }

  /** Joining the joined parts is joining all the lines. */
  lemma {:induction false} JoinBlocks(parts: seq<seq<Text>>)
    requires forall i :: 0 <= i < |parts| ==> parts[i] != []
    ensures JoinLines(Blocks(parts)) == JoinLines(Flatten(parts))
  {
    if parts != [] {
      var init, last := parts[..|parts| - 1], parts[|parts| - 1];
      assert parts == init + [last];
      JoinBlocks(init);
      FlattenSnoc(init, last);
      BlocksSnoc(init, last);
      JoinSnoc(Blocks(init), JoinLines(last), "\n");
      if init == [] {
        assert [] + last == last;
      } else {
        assert Flatten(init) != [] by { assert Flatten(init) == init[0] + Flatten(init[1..]); }
        JoinConcat(Flatten(init), last, "\n");
      }
    }
  }

  ghost predicate AllTrimmed(lines: seq<Text>) {
    forall i :: 0 <= i < |lines| ==> Trimmed(lines[i])
  }

  // ---------- Windows ----------

  /** The windows of a block from position `i` on; each starts `step` after the one before. */
  function WindowsFrom(b: Text, size: nat, step: nat, i: nat): seq<Text>
    requires 0 < step <= size && i <= |b|
    decreases |b| - i
  {
    if i + size >= |b| then [b[i..]] else [b[i..i + size]] + WindowsFrom(b, size, step, i + step)
  }

  /** Window `k` begins `k` steps on and is full, except for the last, which ends with the block. */
  lemma {:induction false} WindowAt(b: Text, size: nat, step: nat, i: nat, k: nat)
    requires 0 < step <= size && i <= |b| && k < |WindowsFrom(b, size, step, i)|
    ensures var ws, from := WindowsFrom(b, size, step, i), i + k * step;
      && from <= |b| && (k == |ws| - 1 <==> from + size >= |b|)
      && ws[k] == if k == |ws| - 1 then b[from..] else b[from..from + size]
    decreases k
  {
    if i + size < |b| && k > 0 {
      WindowAt(b, size, step, i + step, k - 1);
      NextStep(i, k, step);
    } else {
      NoStep(step);
    }
  }

  lemma NextStep(i: nat, k: nat, step: nat)
    requires k > 0
    ensures (i + step) + (k - 1) * step == i + k * step
  {
  }

  lemma NoStep(step: nat)
    ensures 0 * step == 0
  {
  }

  function Windows(b: Text, size: nat, overlap: nat): seq<Text>
    requires overlap < size
  {
    if |b| <= size then [b] else WindowsFrom(b, size, size - overlap, 0)
  }

  /** Each window after the first without its overlap. */
  function Overlapped(ws: seq<Text>, overlap: nat): Text {
    if ws == [] then ""
    else if |ws| == 1 then ws[0]
    else Overlapped(ws[..|ws| - 1], overlap) + if overlap <= |ws[|ws| - 1]| then ws[|ws| - 1][overlap..] else ""
  }

  lemma {:induction false} OverlappedHead(w: Text, ws: seq<Text>, overlap: nat)
    requires ws != [] && overlap <= |ws[0]| && overlap <= |w|
    ensures overlap <= |Overlapped(ws, overlap)|
    ensures Overlapped([w] + ws, overlap) == w + Overlapped(ws, overlap)[overlap..]
  {
    if |ws| == 1 {
      assert ([w] + ws)[..1] == [w];
    } else {
      OverlappedHead(w, ws[..|ws| - 1], overlap);
      assert ([w] + ws)[..|ws|] == [w] + ws[..|ws| - 1];
    }
  }

  /** The windows cover the block: without the overlaps they are the block, and none is empty or too long. */
  lemma {:induction false} WindowsRejoin(b: Text, size: nat, overlap: nat, i: nat)
    requires overlap < size && i + overlap < |b|
    ensures var ws := WindowsFrom(b, size, size - overlap, i);
      && ws != [] && overlap < |ws[0]| && Overlapped(ws, overlap) == b[i..]
      && forall k :: 0 <= k < |ws| ==> overlap < |ws[k]| <= size
    decreases |b| - i
  {
    var step := size - overlap;
    if i + size < |b| {
      WindowsRejoin(b, size, overlap, i + step);
      OverlappedHead(b[i..i + size], WindowsFrom(b, size, step, i + step), overlap);
      assert b[i + step..][overlap..] == b[i + size..];
      assert b[i..] == b[i..i + size] + b[i + size..];
    }
  }

  lemma WindowsOf(b: Text, size: nat, overlap: nat)
    requires overlap < size && b != ""
    ensures var ws := Windows(b, size, overlap);
      && ws != [] && Overlapped(ws, overlap) == b
      && forall k :: 0 <= k < |ws| ==> 0 < |ws[k]| <= size
  {
    if |b| > size {
      WindowsRejoin(b, size, overlap, 0);
      assert b[0..] == b;
    }
  }

  // ---------- The chunker ----------

  function EffectiveSize(size: int): (r: nat)
    ensures r > 0
  {
    if size <= 0 then DEFAULT_CHUNK_SIZE else size
  }

  function EffectiveOverlap(size: nat, overlap: int): (r: nat)
    requires size > 0
    ensures r < size
  {
    if overlap < 0 then 0 else if overlap >= size then size / 4 else overlap
  }

  /** The windows of each block. */
  ghost function Groups(blocks: seq<Text>, size: nat, overlap: nat): seq<seq<Text>>
    requires overlap < size
  {
    seq(|blocks|, i requires 0 <= i < |blocks| => Windows(blocks[i], size, overlap))
  }

  /** The chunks are the windows of the greedily merged kept lines. */
  ghost predicate AreChunks(text: Text, size: nat, overlap: nat, chunks: seq<Text>)
    requires overlap < size
  {
    exists parts :: Merged(Kept(Lines(text)), parts, size) && chunks == Flatten(Groups(Blocks(parts), size, overlap))
  }

  /** The window loop. */
  method CutBlock(b: Text, size: nat, overlap: nat) returns (ws: seq<Text>)
    requires overlap < size
    ensures ws == Windows(b, size, overlap)
  {
    if |b| <= size {
      return [b];
    }
    var step := size - overlap;
    ws := [];
    var i := 0;
    while i < |b|
      invariant 0 <= i < |b| && ws + WindowsFrom(b, size, step, i) == WindowsFrom(b, size, step, 0)
      decreases |b| - i
    {
      var end := i + size;
      if end > |b| {
        end := |b|;
      }
      ws := ws + [b[i..end]];
      if end == |b| {
        assert b[i..end] == b[i..];
        return;
      }
      i := i + step;
    }
  }

  /** The closed parts and the open one, if it has been started. */
  ghost function WithOpen(closed: seq<seq<Text>>, open: seq<Text>): seq<seq<Text>> {
    if open == [] then closed else closed + [open]
  }

  /** The variables of the merge loop. */
  ghost predicate Merging(kept: seq<Text>, size: nat, closed: seq<seq<Text>>, open: seq<Text>,
                          blocks: seq<Text>, buf: Text, bufLen: nat) {
    && Merged(kept, WithOpen(closed, open), size) && (open == [] ==> closed == [])
    && blocks == Blocks(closed) && buf == JoinLines(open) && bufLen == Runes(open) && (bufLen > 0 <==> open != [])
    && AllTrimmed(open) && AllNonEmpty(blocks)
  }

  /** The line fits, or no part is open. */
  lemma LineJoins(kept: seq<Text>, size: nat, closed: seq<seq<Text>>, open: seq<Text>,
                  blocks: seq<Text>, buf: Text, bufLen: nat, u: Text)
    requires Merging(kept, size, closed, open, blocks, buf, bufLen) && Trimmed(u)
      && (bufLen == 0 || bufLen + |u| <= size)
    ensures bufLen == 0 ==> buf == ""
    ensures Merging(kept + [u], size, closed, open + [u], blocks,
                    if bufLen > 0 then buf + "\n" + u else u, bufLen + |u|)
  {
    JoinSnoc(open, u, "\n");
    RunesSnoc(open, u);
    if open == [] {
      StartPart(kept, closed, u, size);
      assert [] + [u] == [u];
    } else {
      GrowPart(kept, closed, open, u, size);
    }
    hide Join, JoinLines, Runes, Merged, Blocks, Trimmed;
  }

  /** The line does not fit: the open part becomes a block, and the line opens the next. */
  lemma LineOpens(kept: seq<Text>, size: nat, closed: seq<seq<Text>>, open: seq<Text>,
                  blocks: seq<Text>, buf: Text, bufLen: nat, u: Text)
    requires Merging(kept, size, closed, open, blocks, buf, bufLen) && Trimmed(u) && bufLen > 0 && bufLen + |u| > size
    ensures Trim(buf) == buf
    ensures Merging(kept + [u], size, closed + [open], [u], blocks + [buf], u, |u|)
  {
    BlockCloses(kept, size, closed, open, blocks, buf, bufLen);
    StartPart(kept, closed + [open], u, size);
    JoinSnoc([], u, "\n");
    RunesSnoc([], u);
    assert [] + [u] == [u];
    hide Join, JoinLines, Runes, Merged, Blocks, Trim;
  }

  lemma BlockCloses(kept: seq<Text>, size: nat, closed: seq<seq<Text>>, open: seq<Text>,
                    blocks: seq<Text>, buf: Text, bufLen: nat)
    requires Merging(kept, size, closed, open, blocks, buf, bufLen) && bufLen > 0
    ensures Trim(buf) == buf && Merged(kept, closed + [open], size)
    ensures blocks + [buf] == Blocks(closed + [open]) && AllNonEmpty(blocks + [buf])
  {
    JoinTrimmed(open);
    TrimmedStays(buf);
    BlocksSnoc(closed, open);
  }

  ghost predicate AllNonEmpty(blocks: seq<Text>) {
    forall i :: 0 <= i < |blocks| ==> blocks[i] != ""
  }

  /** The merge loop's step for a line that is kept. */
  method MergeLine(u: Text, size: nat, blocks: seq<Text>, buf: Text, bufLen: nat,
                   ghost kept: seq<Text>, ghost closed: seq<seq<Text>>, ghost open: seq<Text>)
    returns (blocks': seq<Text>, buf': Text, bufLen': nat, ghost closed': seq<seq<Text>>, ghost open': seq<Text>)
    requires Merging(kept, size, closed, open, blocks, buf, bufLen) && Trimmed(u)
    ensures Merging(kept + [u], size, closed', open', blocks', buf', bufLen')
  {
    hide *;
    blocks', buf', bufLen', closed', open' := blocks, buf, bufLen, closed, open;
    if bufLen' > 0 && bufLen' + |u| > size {
      LineOpens(kept, size, closed, open, blocks, buf, bufLen, u);
      blocks' := blocks' + [Trim(buf')];
      buf', bufLen', closed', open' := "", 0, closed + [open], [];
    } else {
      LineJoins(kept, size, closed, open, blocks, buf, bufLen, u);
    }
    if bufLen' > 0 {
      buf' := buf' + "\n";
    }
    assert [] + [u] == [u] && "" + u == u;
    buf' := buf' + u;
    bufLen' := bufLen' + |u|;
    open' := open' + [u];
  }

  /** The merge loop. */
  method MergeLines(lines: seq<Text>, size: nat) returns (blocks: seq<Text>)
    ensures exists parts :: Merged(Kept(lines), parts, size) && blocks == Blocks(parts)
    ensures AllNonEmpty(blocks)
  {
    blocks := [];
    ghost var closed: seq<seq<Text>>, open: seq<Text> := [], [];
    var buf, bufLen := "", 0;
    for i := 0 to |lines|
      invariant bufLen >= 0 && Merging(Kept(lines[..i]), size, closed, open, blocks, buf, bufLen)
    {
      var u := Trim(lines[i]);
      TrimGivesTrimmed(lines[i]);
      KeptSnocLine(lines, i);
      hide *;
      if u != "" {
        blocks, buf, bufLen, closed, open := MergeLine(u, size, blocks, buf, bufLen, Kept(lines[..i]), closed, open);
      }
    }
    assert lines[..|lines|] == lines;
    if bufLen > 0 {
      BlockCloses(Kept(lines), size, closed, open, blocks, buf, bufLen);
      blocks := blocks + [Trim(buf)];
    }
  }

  /** Cuts every block. */
  method CutBlocks(blocks: seq<Text>, size: nat, overlap: nat) returns (chunks: seq<Text>)
    requires overlap < size
    ensures chunks == Flatten(Groups(blocks, size, overlap))
  {
    chunks := [];
    for i := 0 to |blocks|
      invariant chunks == Flatten(Groups(blocks[..i], size, overlap))
    {
      var ws := CutBlock(blocks[i], size, overlap);
      assert Groups(blocks[..i + 1], size, overlap) == Groups(blocks[..i], size, overlap) + [ws];
      FlattenSnoc(Groups(blocks[..i], size, overlap), ws);
      chunks := chunks + ws;
    }
    assert blocks[..|blocks|] == blocks;
  }

  method Chunk(text: Text, chunkSize: int, chunkOverlap: int) returns (chunks: seq<Text>)
    ensures var size := if chunkSize <= 0 then 600 else chunkSize;
      var overlap := if chunkOverlap < 0 then 0 else if chunkOverlap >= size then size / 4 else chunkOverlap;
      AreChunks(text, size, overlap, chunks)
  {
    var t := Trim(text);
    KeptIgnoresTrim(text);
    var size := EffectiveSize(chunkSize);
    var overlap := EffectiveOverlap(size, chunkOverlap);
    if t == "" {
      KeptOne("");
      assert Merged(Kept(Lines(text)), [], size) && Groups(Blocks([]), size, overlap) == [];
      return [];
    }
    hide Trim, Lines, Kept, Merged, Blocks;
    var out := MergeLines(Lines(t), size);
    chunks := CutBlocks(out, size, overlap);
  }

  // ---------- What chunks are good for ----------

  /** The text, the size and the overlap determine the chunks. */
  lemma ChunksDetermined(text: Text, size: nat, overlap: nat, a: seq<Text>, b: seq<Text>)
    requires overlap < size && AreChunks(text, size, overlap, a) && AreChunks(text, size, overlap, b)
    ensures a == b
  {
    var p :| Merged(Kept(Lines(text)), p, size) && a == Flatten(Groups(Blocks(p), size, overlap));
    var q :| Merged(Kept(Lines(text)), q, size) && b == Flatten(Groups(Blocks(q), size, overlap));
    MergedOnce(p, q, size);
  }

  /**
   Windows of a block, with the overlaps dropped, are the block; blocks joined by newlines are the kept lines
   in order.
   */
  ghost predicate Rejoins(groups: seq<seq<Text>>, overlap: nat, kept: seq<Text>) {
    JoinLines(seq(|groups|, i requires 0 <= i < |groups| => Overlapped(groups[i], overlap))) == JoinLines(kept)
  }

  lemma {:induction false} KeptTrimmed(lines: seq<Text>)
    ensures AllTrimmed(Kept(lines))
  {
    if lines != [] {
      KeptTrimmed(lines[..|lines| - 1]);
      TrimGivesTrimmed(lines[|lines| - 1]);
    }
  }

  lemma {:induction false} PartsTrimmed(parts: seq<seq<Text>>, k: nat)
    requires k < |parts| && AllTrimmed(Flatten(parts))
    ensures AllTrimmed(parts[k])
  {
    var all, rest := Flatten(parts), Flatten(parts[1..]);
    assert all == parts[0] + rest;
    if k == 0 {
      assert forall i :: 0 <= i < |parts[0]| ==> parts[0][i] == all[i];
    } else {
      assert forall i :: 0 <= i < |rest| ==> rest[i] == all[|parts[0]| + i];
      PartsTrimmed(parts[1..], k - 1);
      assert parts[1..][k - 1] == parts[k];
    }
  }

  /** Every block is non-empty, and its windows are the block. */
  lemma BlockWindows(kept: seq<Text>, parts: seq<seq<Text>>, size: nat, overlap: nat, i: nat)
    requires overlap < size && Merged(kept, parts, size) && AllTrimmed(kept) && i < |parts|
    ensures var ws := Groups(Blocks(parts), size, overlap)[i];
      Overlapped(ws, overlap) == JoinLines(parts[i]) && forall k :: 0 <= k < |ws| ==> 0 < |ws[k]| <= size
  {
    PartsTrimmed(parts, i);
    JoinTrimmed(parts[i]);
    WindowsOf(JoinLines(parts[i]), size, overlap);
  }

  lemma {:induction false} AllFit(groups: seq<seq<Text>>, size: nat)
    requires forall i, k :: 0 <= i < |groups| && 0 <= k < |groups[i]| ==> 0 < |groups[i][k]| <= size
    ensures forall i :: 0 <= i < |Flatten(groups)| ==> 0 < |Flatten(groups)[i]| <= size
  {
    if groups != [] {
      AllFit(groups[1..], size);
      var rest := Flatten(groups[1..]);
      forall i | 0 <= i < |groups[0] + rest| ensures 0 < |(groups[0] + rest)[i]| <= size {
        assert i >= |groups[0]| ==> (groups[0] + rest)[i] == rest[i - |groups[0]|];
      }
    }
  }

  lemma GroupsFit(kept: seq<Text>, parts: seq<seq<Text>>, size: nat, overlap: nat)
    requires overlap < size && Merged(kept, parts, size) && AllTrimmed(kept)
    ensures var groups := Groups(Blocks(parts), size, overlap);
      && |groups| == |parts|
      && (forall i :: 0 <= i < |parts| ==> Overlapped(groups[i], overlap) == JoinLines(parts[i]))
      && forall i, k :: 0 <= i < |groups| && 0 <= k < |groups[i]| ==> 0 < |groups[i][k]| <= size
  {
    var groups := Groups(Blocks(parts), size, overlap);
    assert |groups| == |parts|;
    hide *;
    forall i | 0 <= i < |parts|
      ensures Overlapped(groups[i], overlap) == JoinLines(parts[i])
        && forall k :: 0 <= k < |groups[i]| ==> 0 < |groups[i][k]| <= size
    {
      BlockWindows(kept, parts, size, overlap, i);
    }
  }

  lemma GroupsRejoin(parts: seq<seq<Text>>, groups: seq<seq<Text>>, overlap: nat)
    requires |groups| == |parts| && forall i :: 0 <= i < |parts| ==> parts[i] != []
    requires forall i :: 0 <= i < |parts| ==> Overlapped(groups[i], overlap) == JoinLines(parts[i])
    ensures Rejoins(groups, overlap, Flatten(parts))
  {
    assert seq(|groups|, i requires 0 <= i < |groups| => Overlapped(groups[i], overlap)) == Blocks(parts);
    JoinBlocks(parts);
    hide Overlapped, JoinLines, Flatten;
  }

  /** No chunk is empty or too long, and nothing is lost. */
  lemma ChunkLosesNothing(text: Text, size: nat, overlap: nat, chunks: seq<Text>)
    requires overlap < size && AreChunks(text, size, overlap, chunks)
    ensures forall i :: 0 <= i < |chunks| ==> 0 < |chunks[i]| <= size
    ensures exists groups :: chunks == Flatten(groups) && Rejoins(groups, overlap, Kept(Lines(text)))
  {
    var kept := Kept(Lines(text));
    var parts :| Merged(kept, parts, size) && chunks == Flatten(Groups(Blocks(parts), size, overlap));
    var groups := Groups(Blocks(parts), size, overlap);
    KeptTrimmed(Lines(text));
    GroupsFit(kept, parts, size, overlap);
    assert Flatten(parts) == kept && forall i :: 0 <= i < |parts| ==> parts[i] != [];
    hide *;
    AllFit(groups, size);
    GroupsRejoin(parts, groups, overlap);
  }
}
