/**
 user/grep.c: the matcher of Kernighan and Pike against a declarative meaning of its
 patterns, and the loop over a 1024-byte buffer against the lines of the input.

 C strings are sequences without their terminating NUL.
 */
module Grep {

  // ---- the meaning of a pattern ----

  datatype Item = One(c: char) | Many(c: char)

  /** The items of a pattern in order, and whether a final $ ties its end to the end of the text. */
  datatype Regex = Regex(items: seq<Item>, end: bool)

  function Parse(re: string): (r: Regex)
    decreases |re|
  {
    if re == [] then Regex([], false)
    else if |re| >= 2 && re[1] == '*' then
      var rest := Parse(re[2..]);
      Regex([Many(re[0])] + rest.items, rest.end)
    else if re == "$" then Regex([], true)
    else
      var rest := Parse(re[1..]);
      Regex([One(re[0])] + rest.items, rest.end)
  }

  predicate Fits(c: char, x: char) {
    c == '.' || c == x
  }

  predicate AllFit(c: char, s: string) {
    forall i :: 0 <= i < |s| ==> Fits(c, s[i])
  }

  predicate PartFits(it: Item, s: string) {
    match it
    case One(c) => |s| == 1 && Fits(c, s[0])
    case Many(c) => AllFit(c, s)
  }

  function Join(parts: seq<string>): (r: string) {
    if parts == [] then [] else parts[0] + Join(parts[1..])
  }

  /** `u` falls into one part per item. */
  predicate Splits(items: seq<Item>, parts: seq<string>, u: string) {
    |parts| == |items| && Join(parts) == u && forall i :: 0 <= i < |items| ==> PartFits(items[i], parts[i])
  }

  ghost predicate Denotes(items: seq<Item>, u: string) {
    exists parts :: Splits(items, parts, u)
  }

  /** Some beginning of the text is what the pattern denotes; with a final $, the whole text. */
  ghost predicate Here(re: string, text: string) {
    exists j {:trigger text[..j]} ::
      0 <= j <= |text| && Denotes(Parse(re).items, text[..j]) && (Parse(re).end ==> j == |text|)
  }

  /** Some substring is what the pattern denotes; with a leading ^, a beginning. */
  ghost predicate Found(re: string, text: string) {
    if re != [] && re[0] == '^' then Here(re[1..], text)
    else exists i {:trigger text[i..]} :: 0 <= i <= |text| && Here(re, text[i..])
  }

  // ---- one item at a time ----

  lemma DenotesNothing(u: string)
    ensures Denotes([], u) <==> u == []
  {
    if u == [] {
      assert Splits([], [], u);
    }
  }

  lemma DenotesFirst(it: Item, items: seq<Item>, u: string)
    ensures Denotes([it] + items, u) <==>
      exists k {:trigger u[..k]} :: 0 <= k <= |u| && PartFits(it, u[..k]) && Denotes(items, u[k..])
  {
    var all := [it] + items;
    if Denotes(all, u) {
      var parts :| Splits(all, parts, u);
      var k := |parts[0]|;
      assert u[..k] == parts[0] && u[k..] == Join(parts[1..]);
      assert PartFits(all[0], parts[0]);
      forall i | 0 <= i < |items| ensures PartFits(items[i], parts[1..][i]) {
        assert PartFits(all[i + 1], parts[i + 1]);
      }
      assert Splits(items, parts[1..], u[k..]);
    }
    if k :| 0 <= k <= |u| && PartFits(it, u[..k]) && Denotes(items, u[k..]) {
      var parts :| Splits(items, parts, u[k..]);
      var more := [u[..k]] + parts;
      assert more[1..] == parts && u[..k] + u[k..] == u;
      assert Splits(all, more, u);
    }
  }

  lemma HereEmpty(text: string)
    ensures Here([], text)
  {
    assert text[..0] == [];
    DenotesNothing(text[..0]);
  }

  lemma HereEnd(text: string)
    ensures Here("$", text) <==> text == []
  {
    DenotesNothing(text);
    if Here("$", text) {
      var j :| 0 <= j <= |text| && Denotes(Parse("$").items, text[..j]) && (Parse("$").end ==> j == |text|);
      assert text[..j] == text;
    } else {
      assert text[..|text|] == text;
    }
  }

  /** How the rest of a pattern, matched behind the first `k` characters, becomes a match of the whole. */
  lemma HereSplit(it: Item, rest: Regex, text: string, j: nat)
    requires j <= |text|
    ensures Denotes([it] + rest.items, text[..j]) <==>
      exists k {:trigger text[..k]} :: 0 <= k <= j && PartFits(it, text[..k]) && Denotes(rest.items, text[k..j])
  {
    var u := text[..j];
    DenotesFirst(it, rest.items, u);
    if k :| 0 <= k <= |u| && PartFits(it, u[..k]) && Denotes(rest.items, u[k..]) {
      assert u[..k] == text[..k] && u[k..] == text[k..j];
    }
    if k :| 0 <= k <= j && PartFits(it, text[..k]) && Denotes(rest.items, text[k..j]) {
      assert u[..k] == text[..k] && u[k..] == text[k..j];
    }
  }

  /** `c*` and then the rest: the rest matches behind some run of characters that fit `c`. */
  lemma HereMany(re: string, text: string)
    requires |re| >= 2 && re[1] == '*'
    ensures Here(re, text) <==>
      exists k {:trigger text[k..]} :: 0 <= k <= |text| && AllFit(re[0], text[..k]) && Here(re[2..], text[k..])
  {
    var it, rest := Many(re[0]), Parse(re[2..]);
    if Here(re, text) {
      var j :| 0 <= j <= |text| && Denotes(Parse(re).items, text[..j]) && (Parse(re).end ==> j == |text|);
      HereSplit(it, rest, text, j);
      var k :| 0 <= k <= j && PartFits(it, text[..k]) && Denotes(rest.items, text[k..j]);
      Shift(re[2..], text, k, j);
    }
    if k :| 0 <= k <= |text| && AllFit(re[0], text[..k]) && Here(re[2..], text[k..]) {
      var j := Unshift(re[2..], text, k);
      HereSplit(it, rest, text, j);
      assert PartFits(it, text[..k]);
    }
  }

  lemma Shift(re: string, text: string, k: nat, j: nat)
    requires k <= j <= |text| && Denotes(Parse(re).items, text[k..j]) && (Parse(re).end ==> j == |text|)
    ensures Here(re, text[k..])
  {
    assert text[k..][..j - k] == text[k..j];
  }

  lemma Unshift(re: string, text: string, k: nat) returns (j: nat)
    requires k <= |text| && Here(re, text[k..])
    ensures k <= j <= |text| && Denotes(Parse(re).items, text[k..j]) && (Parse(re).end ==> j == |text|)
  {
    var t := text[k..];
    var i :| 0 <= i <= |t| && Denotes(Parse(re).items, t[..i]) && (Parse(re).end ==> i == |t|);
    assert t[..i] == text[k..k + i];
    j := k + i;
  }

  /** Any other first character: the text must begin with a character that fits it. */
  lemma HereOne(re: string, text: string)
    requires re != [] && !(|re| >= 2 && re[1] == '*') && re != "$"
    ensures Here(re, text) <==> text != [] && Fits(re[0], text[0]) && Here(re[1..], text[1..])
  {
    var it, rest := One(re[0]), Parse(re[1..]);
    if Here(re, text) {
      var j :| 0 <= j <= |text| && Denotes(Parse(re).items, text[..j]) && (Parse(re).end ==> j == |text|);
      HereSplit(it, rest, text, j);
      var k :| 0 <= k <= j && PartFits(it, text[..k]) && Denotes(rest.items, text[k..j]);
      Shift(re[1..], text, k, j);
    }
    if text != [] && Fits(re[0], text[0]) && Here(re[1..], text[1..]) {
      var j := Unshift(re[1..], text, 1);
      assert PartFits(it, text[..1]);
      HereSplit(it, rest, text, j);
    }
  }

  // ---- the matcher ----

  method MatchHere(re: string, text: string) returns (r: bool)
    ensures r <==> Here(re, text)
    decreases |re|, 0
  {
    if re == [] {
      HereEmpty(text);
      return true;
    }
    if |re| >= 2 && re[1] == '*' {
      HereMany(re, text);
      r := MatchStar(re[0], re[2..], text);
      return;
    }
    if re[0] == '$' && |re| == 1 {
      HereEnd(text);
      assert re == "$";
      return text == [];
    }
    HereOne(re, text);
    if text != [] && (re[0] == '.' || re[0] == text[0]) {
      r := MatchHere(re[1..], text[1..]);
      return;
    }
    return false;
  }

  method MatchStar(c: char, re: string, text: string) returns (r: bool)
    ensures r <==> exists k {:trigger text[k..]} :: 0 <= k <= |text| && AllFit(c, text[..k]) && Here(re, text[k..])
    decreases |re|, 1
  {
    hide Here, Fits;
    var i := 0;
    assert text[0..] == text;
    while true
      invariant 0 <= i <= |text| && AllFit(c, text[..i])
      invariant forall k {:trigger text[k..]} :: 0 <= k < i ==> !Here(re, text[k..])
      decreases |text| - i
    {
      var found := MatchHere(re, text[i..]);
      if found {
        return true;
      }
      if i == |text| || !(text[i] == c || c == '.') {
        StarEnds(c, re, text, i);
        return false;
      }
      StarOn(c, text, i);
      i := i + 1;
    }
  }

  lemma StarOn(c: char, text: string, i: nat)
    requires i < |text| && AllFit(c, text[..i]) && (text[i] == c || c == '.')
    ensures AllFit(c, text[..i + 1])
  {
  }

  lemma StarEnds(c: char, re: string, text: string, i: nat)
    requires i <= |text| && (i == |text| || !(text[i] == c || c == '.'))
    requires forall k {:trigger text[k..]} :: 0 <= k <= i ==> !Here(re, text[k..])
    ensures !exists k {:trigger text[k..]} :: 0 <= k <= |text| && AllFit(c, text[..k]) && Here(re, text[k..])
  {
    forall k {:trigger text[k..]} | 0 <= k <= |text| && Here(re, text[k..]) ensures !AllFit(c, text[..k]) {
      assert k > i;
      assert text[..k][i] == text[i];
    }
  }

  method Match(re: string, text: string) returns (r: bool)
    ensures r <==> Found(re, text)
  {
    hide Here;
    if re != [] && re[0] == '^' {
      r := MatchHere(re[1..], text);
      return;
    }
    var i := 0;
    while true
      invariant 0 <= i <= |text|
      invariant forall k {:trigger text[k..]} :: 0 <= k < i ==> !Here(re, text[k..])
      decreases |text| - i
    {
      var found := MatchHere(re, text[i..]);
      if found {
        return true;
      }
      if i == |text| {
        return false;
      }
      i := i + 1;
    }
  }

  // ---- the lines of the input ----

  const BUFSIZE := 1024

  /** The position of the first newline, or the length. */
  function LineEnd(s: string): (k: nat)
    ensures k <= |s| && (k < |s| ==> s[k] == '\n') && forall i :: 0 <= i < k ==> s[i] != '\n'
  {
    if s == [] || s[0] == '\n' then 0 else 1 + LineEnd(s[1..])
  }

  /** The newline-terminated lines that match, in order. */
  ghost function MatchingLines(re: string, s: string): (r: string)
    decreases |s|
  {
    var k := LineEnd(s);
    if k == |s| then [] else (if Found(re, s[..k]) then s[..k + 1] else []) + MatchingLines(re, s[k + 1..])
  }

  /** A line with its newline and the NUL fits the buffer. */
  predicate LineFits(s: string) {
    LineEnd(s) + 2 <= BUFSIZE
  }

  /** The lines that match before the first line that does not fit. */
  ghost function Printed(re: string, s: string): (r: string)
    decreases |s|
  {
    var k := LineEnd(s);
    if k == |s| || !LineFits(s) then [] else (if Found(re, s[..k]) then s[..k + 1] else []) + Printed(re, s[k + 1..])
  }

  /** The input from the first line on that does not fit. */
  ghost function Unread(s: string): (r: string)
    decreases |s|
  {
    var k := LineEnd(s);
    if k == |s| || !LineFits(s) then s else Unread(s[k + 1..])
  }

  lemma Regroup(a: string, b: string, c: string)
    ensures a + (b + c) == (a + b) + c
  {
  }

  lemma {:induction false} PrintedPrefix(re: string, s: string)
    ensures MatchingLines(re, s) == Printed(re, s) + MatchingLines(re, Unread(s))
    decreases |s|
  {
    hide Found, LineEnd, Denotes;
    var k := LineEnd(s);
    if k < |s| && LineFits(s) {
      PrintedPrefix(re, s[k + 1..]);
      Regroup(if Found(re, s[..k]) then s[..k + 1] else [], Printed(re, s[k + 1..]), MatchingLines(re, Unread(s)));
    }
  }

  /** Every line fits. */
  ghost predicate AllLinesFit(s: string)
    decreases |s|
  {
    LineFits(s) && (LineEnd(s) < |s| ==> AllLinesFit(s[LineEnd(s) + 1..]))
  }

  /**
   The matching lines are printed, all of them, exactly when none of them lies at or behind a line that does
   not fit.
   */
  lemma PrintsAll(re: string, s: string)
    ensures Printed(re, s) == MatchingLines(re, s) <==> MatchingLines(re, Unread(s)) == []
  {
    PrintedPrefix(re, s);
  }

  /** A line of 1023 characters: it matches, and nothing is printed. */
  lemma LongLineLost(line: string)
    requires |line| == BUFSIZE - 1 && forall i :: 0 <= i < |line| ==> line[i] == 'x'
    ensures MatchingLines("x", line + "\n") == line + "\n" && Printed("x", line + "\n") == ""
  {
    var s := line + "\n";
    LineEndOf(s, |line|);
    assert s[..|line|] == line && s[..|line| + 1] == s && s[|line| + 1..] == "";
    assert Parse("x").items == [One('x')];
    assert Join(["x"]) == "x" by {
      assert ["x"][1..] == [];
    }
    assert line[..1] == "x" && Splits(Parse("x").items, ["x"], line[..1]);
    assert line[0..] == line && Here("x", line);
  }

  lemma {:induction false} FittingInput(re: string, s: string)
    requires AllLinesFit(s)
    ensures Printed(re, s) == MatchingLines(re, s)
    decreases |s|
  {
    if LineEnd(s) < |s| {
      FittingInput(re, s[LineEnd(s) + 1..]);
    }
  }

  lemma {:induction false} LineEndOf(s: string, k: nat)
    requires k <= |s| && (k < |s| ==> s[k] == '\n') && forall i :: 0 <= i < k ==> s[i] != '\n'
    ensures LineEnd(s) == k
  {
  }

  /** One line at the front of what is left. */
  lemma PrintLine(re: string, line: string, more: string)
    requires (forall i :: 0 <= i < |line| ==> line[i] != '\n') && |line| + 2 <= BUFSIZE
    ensures Printed(re, line + "\n" + more) == (if Found(re, line) then line + "\n" else []) + Printed(re, more)
  {
    var s, k := line + "\n" + more, |line|;
    LineEndOf(s, k);
    assert s[..k] == line && s[..k + 1] == line + "\n" && s[k + 1..] == more;
  }

  lemma PrintNothing(re: string, part: string, rest: string)
    requires (forall i :: 0 <= i < |part| ==> part[i] != '\n') && (rest == [] || |part| == BUFSIZE - 1)
    ensures Printed(re, part + rest) == []
  {
    var s := part + rest;
    if rest == [] {
      LineEndOf(s, |s|);
    }
  }

  // ---- the buffer ----

  /** `strchr(p, '\n')` in the buffer: the first newline before the NUL, or -1. */
  method FindNewline(buf: array<char>, p: nat, m: nat) returns (q: int)
    requires p <= m < buf.Length && buf[m] == '\0' && forall i :: p <= i < m ==> buf[i] != '\0'
    ensures q == -1 || p <= q < m
    ensures q == -1 ==> forall i :: p <= i < m ==> buf[i] != '\n'
    ensures q != -1 ==> buf[q] == '\n' && forall i :: p <= i < q ==> buf[i] != '\n'
  {
    q := p;
    while buf[q] != '\0'
      invariant p <= q <= m && forall i :: p <= i < q ==> buf[i] != '\n'
      decreases m - q
    {
      if buf[q] == '\n' {
        return;
      }
      q := q + 1;
    }
    q := -1;
  }

  /** One line of the inner loop: NUL in place of its newline, `match`, and the line written if it matches. */
  method PrintOne(pattern: string, buf: array<char>, p: nat, q: nat) returns (out: string)
    requires p <= q < buf.Length && buf[q] == '\n'
    modifies buf
    ensures out == if Found(pattern, old(buf[p..q])) then old(buf[p..q]) + "\n" else []
    ensures forall i :: 0 <= i < buf.Length && i != q ==> buf[i] == old(buf[i])
  {
    hide Found;
    ghost var line := buf[p..q];
    buf[q] := '\0';
    assert buf[p..q] == line;
    var found := Match(pattern, buf[p..q]);
    out := [];
    if found {
      buf[q] := '\n';
      out := buf[p..q + 1];
      assert buf[p..q + 1] == line + "\n";
    }
  }

  lemma OneLine(re: string, out: string, line: string, x: string, more: string, rest: string, total: string)
    requires (forall i :: 0 <= i < |line| ==> line[i] != '\n') && |line| + 2 <= BUFSIZE
    requires x == (if Found(re, line) then line + "\n" else [])
    requires out + Printed(re, (line + "\n" + more) + rest) == total
    ensures (out + x) + Printed(re, more + rest) == total
  {
    hide Printed, Found;
    PrintLine(re, line, more + rest);
    assert (line + "\n" + more) + rest == line + "\n" + (more + rest);
    Regroup(out, x, Printed(re, more + rest));
  }

  /** The inner loop of `grep`: the lines completed so far, each written if it matches. */
  method PrintLines(pattern: string, buf: array<char>, m: nat, ghost rest: string) returns (out: string, p: nat)
    requires buf.Length == BUFSIZE && m < BUFSIZE && buf[m] == '\0' && forall i :: 0 <= i < m ==> buf[i] != '\0'
    modifies buf
    ensures p <= m && forall i :: p <= i < m ==> buf[i] != '\n' && buf[i] != '\0'
    ensures out + Printed(pattern, buf[p..m] + rest) == Printed(pattern, old(buf[..m]) + rest)
  {
    hide Printed, Found;
    out, p := [], 0;
    ghost var total := Printed(pattern, buf[..m] + rest);
    assert buf[0..m] == buf[..m];
    while true
      invariant p <= m && buf[m] == '\0' && (forall i :: p <= i < m ==> buf[i] != '\0')
      invariant out + Printed(pattern, buf[p..m] + rest) == total
      decreases m - p
    {
      var q := FindNewline(buf, p, m);
      if q == -1 {
        return;
      }
      ghost var line, more := buf[p..q], buf[q + 1..m];
      assert buf[p..m] == line + "\n" + more;
      var x := PrintOne(pattern, buf, p, q);
      OneLine(pattern, out, line, x, more, rest, total);
      out := out + x;
      p := q + 1;
      assert buf[p..m] == more;
    }
  }

  /**
   `grep`, with the input in as many reads as `sizes` says, up to the room in the buffer. For
   every such chunking it prints the lines that match, up to the first that does not fit.
   */
  method Grep(pattern: string, input: string, sizes: nat -> nat) returns (out: string)
    requires '\0' !in input
    ensures out == Printed(pattern, input)
  {
    hide Printed, Found;
    var buf := new char[BUFSIZE](i => '\0');
    var rest, m, turn := input, 0, 0;
    out := [];
    assert buf[..0] + rest == input;
    while true
      invariant m < BUFSIZE && '\0' !in rest && forall i :: 0 <= i < m ==> buf[i] != '\n' && buf[i] != '\0'
      invariant out + Printed(pattern, buf[..m] + rest) == Printed(pattern, input)
      decreases |rest|
    {
      var n := ReadSize(sizes(turn), BUFSIZE - m - 1, |rest|);
      turn := turn + 1;
      if n == 0 {
        PrintNothing(pattern, buf[..m], rest);
        return;
      }
      ghost var kept := buf[..m];
      forall i | 0 <= i < n {
        buf[m + i] := rest[i];
      }
      assert buf[..m] == kept && buf[m..m + n] == rest[..n];
      assert forall i :: m <= i < m + n ==> buf[i] == rest[i - m];
      assert buf[..m + n] + rest[n..] == kept + rest;
      m := m + n;
      rest := rest[n..];
      buf[m] := '\0';
      var lines, p := PrintLines(pattern, buf, m, rest);
      ghost var tail := buf[p..m];
      out := out + lines;
      forall i | 0 <= i < m - p {
        buf[i] := buf[p + i];
      }
      m := m - p;
      assert buf[..m] == tail;
    }
  }

  /** `read`: something if there is room and input left, and never more than either. */
  function ReadSize(wish: nat, room: nat, left: nat): (n: nat)
    ensures n <= room && n <= left && (n == 0 <==> room == 0 || left == 0)
  {
    var most := if room < left then room else left;
    if wish == 0 || wish > most then most else wish
  }
}
