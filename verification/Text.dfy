/** Text helpers: the parts of Go's strings and strconv packages the router's logic depends on. */
module Text {

  /** Go's unicode.IsSpace. */
  predicate IsSpace(c: char) {
    || c == '\t' || c == '\n' || c == '\U{B}' || c == '\U{C}' || c == '\r' || c == ' '
    || c == '\U{85}' || c == '\U{A0}' || c == '\U{1680}' || '\U{2000}' <= c <= '\U{200A}'
    || c == '\U{2028}' || c == '\U{2029}' || c == '\U{202F}' || c == '\U{205F}' || c == '\U{3000}'
  }

  function TrimLeft(s: string): string {
    if s != [] && IsSpace(s[0]) then TrimLeft(s[1..]) else s
  }

  function TrimRight(s: string): string {
    if s != [] && IsSpace(s[|s| - 1]) then TrimRight(s[..|s| - 1]) else s
  }

  /** strings.TrimSpace and bytes.TrimSpace. */
  function TrimSpace(s: string): string {
    TrimRight(TrimLeft(s))
  }

  predicate HasSuffix(s: string, suffix: string) {
    |suffix| <= |s| && s[|s| - |suffix|..] == suffix
  }

  ghost predicate AllSpace(s: string) {
    forall i :: 0 <= i < |s| ==> IsSpace(s[i])
  }

  /** Text with no white space at either end. */
  ghost predicate Trimmed(s: string) {
    s == [] || (!IsSpace(s[0]) && !IsSpace(s[|s| - 1]))
  }

  lemma {:induction false} TrimLeftDecomposes(s: string) returns (pad: string)
    ensures AllSpace(pad) && s == pad + TrimLeft(s)
    ensures TrimLeft(s) == [] || !IsSpace(TrimLeft(s)[0])
  {
    if s != [] && IsSpace(s[0]) {
      var rest := TrimLeftDecomposes(s[1..]);
      pad := [s[0]] + rest;
    } else {
      pad := [];
    }
  }

  lemma {:induction false} TrimRightDecomposes(s: string) returns (pad: string)
    ensures AllSpace(pad) && s == TrimRight(s) + pad
    ensures TrimRight(s) == [] || !IsSpace(TrimRight(s)[|TrimRight(s)| - 1])
  {
    if s != [] && IsSpace(s[|s| - 1]) {
      var rest := TrimRightDecomposes(s[..|s| - 1]);
      pad := rest + [s[|s| - 1]];
      assert s == s[..|s| - 1] + [s[|s| - 1]];
    } else {
      pad := [];
    }
  }

  /** Trimming removes exactly a white-space prefix and suffix. */
  lemma TrimSpaceDecomposes(s: string) returns (left: string, right: string)
    ensures AllSpace(left) && AllSpace(right) && s == left + TrimSpace(s) + right
    ensures Trimmed(TrimSpace(s))
  {
    left := TrimLeftDecomposes(s);
    right := TrimRightDecomposes(TrimLeft(s));
  }

  /** The decomposition is unique: padding a trimmed text with white space and trimming gives it back. */
  lemma {:induction false} TrimSpacePadded(left: string, middle: string, right: string)
    requires AllSpace(left) && AllSpace(right) && Trimmed(middle)
    ensures TrimSpace(left + middle + right) == middle
    decreases |left| + |right|
  {
    if left != [] {
      var s := left + middle + right;
      assert s[1..] == left[1..] + middle + right;
      TrimSpacePadded(left[1..], middle, right);
    } else if right != [] {
      var s := middle + right;
      assert left + middle + right == s;
      if middle == [] {
        assert s[1..] == [] + middle + right[1..];
        TrimSpacePadded([], middle, right[1..]);
      } else {
        assert TrimLeft(s) == s;
        assert s[..|s| - 1] == left + middle + right[..|right| - 1];
        TrimSpacePadded(left, middle, right[..|right| - 1]);
      }
    } else {
      assert left + middle + right == middle;
    }
  }

  lemma TrimSpaceOfEmpty()
    ensures TrimSpace("") == ""
  {
  }

  // ---- Lines ----

  /** strings.Split(s, "\n"). */
  function Lines(s: string): (lines: seq<string>)
    ensures |lines| >= 1
  {
    if s == [] then [""]
    else
      var rest := Lines(s[1..]);
      if s[0] == '\n' then [""] + rest else [[s[0]] + rest[0]] + rest[1..]
  }

  lemma LinesOfEmpty()
    ensures Lines("") == [""]
  {
  }

  /** What a builder holds after every line has been written with a newline behind it. */
  function Unlines(lines: seq<string>): string {
    if lines == [] then "" else lines[0] + "\n" + Unlines(lines[1..])
  }

  lemma {:induction false} LinesConcat(a: string, b: string)
    ensures Lines(a + "\n" + b) == Lines(a) + Lines(b)
  {
    var s := a + "\n" + b;
    if a == [] {
      assert s[1..] == b;
    } else {
      assert s[1..] == a[1..] + "\n" + b;
      LinesConcat(a[1..], b);
    }
  }

  lemma {:induction false} UnlinesConcat(a: seq<string>, b: seq<string>)
    ensures Unlines(a + b) == Unlines(a) + Unlines(b)
  {
    if a == [] {
      assert a + b == b;
    } else {
      assert (a + b)[1..] == a[1..] + b;
      UnlinesConcat(a[1..], b);
    }
  }

  lemma {:induction false} UnlinesOfLines(s: string)
    ensures Unlines(Lines(s)) == s + "\n"
  {
    if s != [] {
      UnlinesOfLines(s[1..]);
      var rest := Lines(s[1..]);
      assert s + "\n" == [s[0]] + (s[1..] + "\n");
      if s[0] != '\n' {
        assert Lines(s)[1..] == rest[1..];
        assert Unlines(Lines(s)) == [s[0]] + Unlines(rest);
      } else {
        assert Lines(s)[1..] == rest;
      }
    }
  }

  lemma {:induction false} LinesHaveNoNewline(s: string)
    ensures forall l :: l in Lines(s) ==> '\n' !in l
  {
    if s != [] {
      LinesHaveNoNewline(s[1..]);
    }
  }

  lemma {:induction false} LineOfNoNewline(s: string)
    requires '\n' !in s
    ensures Lines(s) == [s]
  {
    if s != [] {
      LineOfNoNewline(s[1..]);
      assert s == [s[0]] + s[1..];
    }
  }

  lemma {:induction false} LinesOfUnlines(lines: seq<string>)
    requires forall l :: l in lines ==> '\n' !in l
    ensures Lines(Unlines(lines)) == lines + [""]
  {
    if lines != [] {
      LinesOfUnlines(lines[1..]);
      LinesConcat(lines[0], Unlines(lines[1..]));
      LineOfNoNewline(lines[0]);
    }
  }

  // ---- Trimmed lines: what a line-based reader that trims each line sees ----

  function TrimEach(lines: seq<string>): (r: seq<string>)
    ensures |r| == |lines|
    ensures forall i :: 0 <= i < |lines| ==> r[i] == TrimSpace(lines[i])
  {
    if lines == [] then [] else [TrimSpace(lines[0])] + TrimEach(lines[1..])
  }

  function TrimmedLines(s: string): seq<string> {
    TrimEach(Lines(s))
  }

  function Blanks(n: nat): (r: seq<string>)
    ensures |r| == n && forall i :: 0 <= i < n ==> r[i] == ""
  {
    seq(n, _ => "")
  }

  lemma TrimEachConcat(a: seq<string>, b: seq<string>)
    ensures TrimEach(a + b) == TrimEach(a) + TrimEach(b)
  {
  }

  lemma TrimSpaceIgnoresEnds(c: char, line: string)
    requires IsSpace(c)
    ensures TrimSpace([c] + line) == TrimSpace(line)
    ensures TrimSpace(line + [c]) == TrimSpace(line)
  {
    var left, right := TrimSpaceDecomposes(line);
    assert [c] + line == ([c] + left) + TrimSpace(line) + right;
    TrimSpacePadded([c] + left, TrimSpace(line), right);
    assert line + [c] == left + TrimSpace(line) + (right + [c]);
    TrimSpacePadded(left, TrimSpace(line), right + [c]);
  }

  function WithLastExtended(lines: seq<string>, c: char): seq<string>
    requires lines != []
  {
    lines[..|lines| - 1] + [lines[|lines| - 1] + [c]]
  }

  lemma {:induction false} LinesOfAppended(s: string, c: char)
    requires c != '\n'
    ensures Lines(s + [c]) == WithLastExtended(Lines(s), c)
  {
    if s == [] {
      assert s + [c] == [c] && [c][1..] == [];
      assert Lines([c][1..]) == [""];
      assert [c] + Lines([])[0] == [c] && Lines([])[1..] == [];
      assert Lines([c]) == [[c]];
      assert "" + [c] == [c];
      assert WithLastExtended([""], c) == [[c]];
    } else {
      assert (s + [c])[1..] == s[1..] + [c];
      LinesOfAppended(s[1..], c);
      hide Lines, Prefixed, WithLastExtended;
      LinesCons(s[0], s[1..]);
      LinesCons(s[0], s[1..] + [c]);
      assert s == [s[0]] + s[1..] && s + [c] == [s[0]] + (s[1..] + [c]);
      ExtendedCons(s[0], Lines(s[1..]), c);
    }
  }

  /** The lines of a text with one more character in front. */
  function Prefixed(first: char, lines: seq<string>): seq<string>
    requires lines != []
  {
    if first == '\n' then [""] + lines else [[first] + lines[0]] + lines[1..]
  }

  lemma LinesCons(first: char, rest: string)
    ensures Lines([first] + rest) == Prefixed(first, Lines(rest))
  {
    assert ([first] + rest)[1..] == rest;
  }

  lemma ExtendedCons(first: char, lines: seq<string>, c: char)
    requires lines != []
    ensures Prefixed(first, WithLastExtended(lines, c)) == WithLastExtended(Prefixed(first, lines), c)
  {
    if first != '\n' && |lines| == 1 {
      assert [first] + (lines[0] + [c]) == [first] + lines[0] + [c];
    }
  }

  lemma PrependedSpace(c: char, s: string) returns (n: nat)
    requires IsSpace(c)
    ensures TrimmedLines([c] + s) == Blanks(n) + TrimmedLines(s)
  {
    assert ([c] + s)[1..] == s;
    if c == '\n' {
      assert TrimSpace("") == "";
      n := 1;
    } else {
      TrimSpaceIgnoresEnds(c, Lines(s)[0]);
      n := 0;
      assert TrimmedLines([c] + s) == TrimmedLines(s);
    }
  }

  lemma AppendedSpace(s: string, c: char) returns (n: nat)
    requires IsSpace(c)
    ensures TrimmedLines(s + [c]) == TrimmedLines(s) + Blanks(n)
  {
    hide IsSpace, TrimLeft, TrimRight, Lines;
    var lines := Lines(s);
    if c == '\n' {
      assert s + "\n" + "" == s + [c];
      LinesConcat(s, "");
      TrimEachConcat(lines, [""]);
      LinesOfEmpty();
      TrimSpaceOfEmpty();
      assert TrimEach([""]) == [""];
      n := 1;
    } else {
      LinesOfAppended(s, c);
      var init, last := lines[..|lines| - 1], lines[|lines| - 1];
      TrimSpaceIgnoresEnds(c, last);
      TrimEachConcat(init, [last]);
      TrimEachConcat(init, [last + [c]]);
      assert lines == init + [last];
      n := 0;
    }
  }

  /** White space around a text only adds blank lines around its trimmed lines. */
  lemma {:induction false} PaddingAddsBlanks(left: string, middle: string, right: string)
    returns (before: nat, after: nat)
    requires AllSpace(left) && AllSpace(right)
    ensures TrimmedLines(left + middle + right) == Blanks(before) + TrimmedLines(middle) + Blanks(after)
    decreases |left| + |right|
  {
    hide IsSpace, TrimmedLines;
    if left != [] {
      var n;
      assert left + middle + right == [left[0]] + (left[1..] + middle + right);
      n := PrependedSpace(left[0], left[1..] + middle + right);
      before, after := PaddingAddsBlanks(left[1..], middle, right);
      assert Blanks(n) + Blanks(before) == Blanks(n + before);
      before := n + before;
    } else if right != [] {
      var n;
      var init := right[..|right| - 1];
      assert left + middle + right == (left + middle + init) + [right[|right| - 1]];
      n := AppendedSpace(left + middle + init, right[|right| - 1]);
      before, after := PaddingAddsBlanks(left, middle, init);
      assert Blanks(after) + Blanks(n) == Blanks(after + n);
      after := after + n;
    } else {
      assert left + middle + right == middle;
      before, after := 0, 0;
    }
  }

  // ---- Decimal numerals ----

  function Digit(n: nat): (c: char)
    requires n < 10
    ensures '0' <= c <= '9'
  {
    '0' + n as char
  }

  /** strconv.FormatUint(n, 10) and the %d verb. */
  function Decimal(n: nat): (s: string)
    ensures |s| >= 1 && forall i :: 0 <= i < |s| ==> '0' <= s[i] <= '9'
  {
    if n < 10 then [Digit(n)] else Decimal(n / 10) + [Digit(n % 10)]
  }

  lemma {:induction false} DecimalInjective(m: nat, n: nat)
    requires Decimal(m) == Decimal(n)
    ensures m == n
  {
    var s := Decimal(m);
    assert m % 10 == s[|s| - 1] as int - '0' as int == n % 10;
    if m < 10 || n < 10 {
      assert |s| == 1;
    } else {
      assert Decimal(m / 10) == s[..|s| - 1] == Decimal(n / 10);
      DecimalInjective(m / 10, n / 10);
    }
  }
}
