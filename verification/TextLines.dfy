/** The string operations the file editor is built from, as Python defines them. */
module TextLines {
  import opened Sequences

  // ----- str.split and str.join on newlines -----

  function Split(s: string): (lines: seq<string>)
    ensures |lines| >= 1
  {
    if s == "" then [""]
    else
      var rest := Split(s[1..]);
      if s[0] == '\n' then [""] + rest else [[s[0]] + rest[0]] + rest[1..]
  }

  function Join(lines: seq<string>): string
    requires |lines| >= 1
  {
    if |lines| == 1 then lines[0] else lines[0] + "\n" + Join(lines[1..])
  }

  ghost predicate NoNewline(s: string) {
    '\n' !in s
  }

  ghost predicate Lines(lines: seq<string>) {
    |lines| >= 1 && forall i :: 0 <= i < |lines| ==> NoNewline(lines[i])
  }

  lemma {:induction false} SplitIsLines(s: string)
    ensures Lines(Split(s))
  {
    if s != "" {
      SplitIsLines(s[1..]);
    }
  }

  lemma {:induction false} JoinSplit(s: string)
    ensures Join(Split(s)) == s
  {
    if s != "" {
      var rest := Split(s[1..]);
      JoinSplit(s[1..]);
      if s[0] == '\n' {
        assert Split(s)[1..] == rest;
      } else if |rest| > 1 {
        assert Split(s)[1..] == rest[1..];
        assert [s[0]] + rest[0] + "\n" + Join(rest[1..]) == [s[0]] + (rest[0] + "\n" + Join(rest[1..]));
      }
    }
  }

  lemma {:induction false} SplitOne(line: string)
    requires NoNewline(line)
    ensures Split(line) == [line]
  {
    if line != "" {
      SplitOne(line[1..]);
      assert line == [line[0]] + line[1..];
    }
  }

  /** Splitting after a newline: the lines before it, then the lines after it. */
  lemma {:induction false} SplitAtNewline(a: string, b: string)
    ensures Split(a + "\n" + b) == Split(a) + Split(b)
  {
    if a == "" {
      assert "" + "\n" + b == "\n" + b;
      assert ("\n" + b)[1..] == b;
    } else {
      assert (a + "\n" + b)[1..] == a[1..] + "\n" + b;
      SplitAtNewline(a[1..], b);
    }
  }

  lemma {:induction false} SplitJoin(lines: seq<string>)
    requires Lines(lines)
    ensures Split(Join(lines)) == lines
  {
    SplitOne(lines[0]);
    if |lines| > 1 {
      SplitJoin(lines[1..]);
      SplitAtNewline(lines[0], Join(lines[1..]));
    }
  }

  lemma {:induction false} CharsOfLines(s: string, c: char)
    requires c !in s
    ensures forall i :: 0 <= i < |Split(s)| ==> c !in Split(s)[i]
  {
    if s != "" {
      CharsOfLines(s[1..], c);
      assert s[0] != c;
    }
  }

  lemma {:induction false} CharsOfJoin(lines: seq<string>, c: char)
    requires |lines| >= 1 && c != '\n' && forall i :: 0 <= i < |lines| ==> c !in lines[i]
    ensures c !in Join(lines)
  {
    if |lines| > 1 {
      CharsOfJoin(lines[1..], c);
    }
  }

  function Newlines(s: string): nat {
    if s == "" then 0 else (if s[0] == '\n' then 1 else 0) + Newlines(s[1..])
  }

  lemma {:induction false} SplitCount(s: string)
    ensures |Split(s)| == Newlines(s) + 1
  {
    if s != "" {
      SplitCount(s[1..]);
    }
  }

  lemma {:induction false} NewlinesConcat(a: string, b: string)
    ensures Newlines(a + b) == Newlines(a) + Newlines(b)
  {
    if a == "" {
      assert a + b == b;
    } else {
      assert (a + b)[1..] == a[1..] + b;
      NewlinesConcat(a[1..], b);
    }
  }

  /** All lines of a prefix but its last are lines of the whole. */
  lemma {:induction false} SplitPrefix(a: string, b: string, i: nat)
    requires i < |Split(a)| - 1
    ensures i < |Split(a + b)| && Split(a + b)[i] == Split(a)[i]
  {
    assert (a + b)[1..] == a[1..] + b && (a + b)[0] == a[0];
    var rest, longer := Split(a[1..]), Split(a[1..] + b);
    if a[0] == '\n' {
      if i > 0 {
        SplitPrefix(a[1..], b, i - 1);
      }
    } else {
      SplitPrefix(a[1..], b, i);
    }
  }

  // ----- str.splitlines, which knows more line boundaries -----

  predicate Boundary(c: char) {
    || c == '\n' || c == '\r' || c == '\U{0B}' || c == '\U{0C}' || c == '\U{1C}' || c == '\U{1D}'
    || c == '\U{1E}' || c == '\U{85}' || c == '\U{2028}' || c == '\U{2029}'
  }

  /** How many lines `splitlines` finds; `open` says whether a line has begun. */
  function LineCount(s: string, open: bool): nat {
    if s == "" then if open then 1 else 0
    else if |s| >= 2 && s[0] == '\r' && s[1] == '\n' then 1 + LineCount(s[2..], false)
    else if Boundary(s[0]) then 1 + LineCount(s[1..], false)
    else LineCount(s[1..], true)
  }

  lemma {:induction false} LineCountAtLeast(s: string, open: bool)
    ensures LineCount(s, open) >= Newlines(s)
    ensures s != "" || open ==> LineCount(s, open) >= 1
    decreases |s|
  {
    if s == "" {
    } else if |s| >= 2 && s[0] == '\r' && s[1] == '\n' {
      assert s[1..][1..] == s[2..];
      LineCountAtLeast(s[2..], false);
    } else {
      LineCountAtLeast(s[1..], !Boundary(s[0]));
    }
  }

  predicate OnlyNewlines(s: string) {
    forall c :: c in s && Boundary(c) ==> c == '\n'
  }

  /** Where the only line ends are newlines, it is their number, and one more for a last line that does
      not end. */
  lemma {:induction false} LineCountExact(s: string, open: bool)
    requires OnlyNewlines(s)
    ensures LineCount(s, open) ==
            Newlines(s) + if s == "" then (if open then 1 else 0) else if s[|s| - 1] == '\n' then 0 else 1
    decreases |s|
  {
    if s != "" {
      assert s[0] in s;
      LineCountExact(s[1..], !Boundary(s[0]));
    }
  }

  // ----- str.count and str.replace -----

  predicate At(s: string, i: nat, sub: string) {
    i + |sub| <= |s| && s[i..i + |sub|] == sub
  }

  function Count(s: string, sub: string): nat
    requires sub != ""
    decreases |s|
  {
    if s == "" then 0
    else if At(s, 0, sub) then 1 + Count(s[|sub|..], sub)
    else Count(s[1..], sub)
  }

  function Replace(s: string, sub: string, text: string): string
    requires sub != ""
    decreases |s|
  {
    if s == "" then ""
    else if At(s, 0, sub) then text + Replace(s[|sub|..], sub, text)
    else [s[0]] + Replace(s[1..], sub, text)
  }

  /** What comes before the first occurrence: Python's `s.split(sub)[0]`. */
  function Before(s: string, sub: string): string
    requires sub != ""
  {
    if s == "" || At(s, 0, sub) then "" else [s[0]] + Before(s[1..], sub)
  }

  lemma AtShift(s: string, k: nat, i: nat, sub: string)
    requires k <= |s|
    ensures At(s[k..], i, sub) <==> At(s, k + i, sub)
  {
    if k + i + |sub| <= |s| {
      assert s[k..][i..i + |sub|] == s[k + i..k + i + |sub|];
    }
  }

  lemma {:induction false} CountPositive(s: string, sub: string, i: nat)
    requires sub != "" && At(s, i, sub)
    ensures Count(s, sub) > 0
    decreases |s|
  {
    if !At(s, 0, sub) {
      AtShift(s, 1, i - 1, sub);
      CountPositive(s[1..], sub, i - 1);
    }
  }

  lemma {:induction false} BeforeFirst(s: string, sub: string)
    requires sub != "" && Count(s, sub) > 0
    ensures At(s, |Before(s, sub)|, sub) && s[..|Before(s, sub)|] == Before(s, sub)
    decreases |s|
  {
    if !At(s, 0, sub) {
      var rest := s[1..];
      BeforeFirst(rest, sub);
      AtShift(s, 1, |Before(rest, sub)|, sub);
      assert s[..1 + |Before(rest, sub)|] == [s[0]] + rest[..|Before(rest, sub)|];
    }
  }

  lemma {:induction false} BeforeIsFirst(s: string, sub: string, i: nat)
    requires sub != "" && i < |Before(s, sub)|
    ensures !At(s, i, sub)
    decreases |s|
  {
    if i > 0 {
      BeforeIsFirst(s[1..], sub, i - 1);
      AtShift(s, 1, i - 1, sub);
    }
  }

  /** The count is zero exactly when the text occurs nowhere. */
  lemma CountZero(s: string, sub: string)
    requires sub != ""
    ensures Count(s, sub) == 0 <==> forall i: nat :: !At(s, i, sub)
  {
    if Count(s, sub) == 0 {
      forall i: nat ensures !At(s, i, sub) {
        if At(s, i, sub) {
          CountPositive(s, sub, i);
        }
      }
    } else {
      BeforeFirst(s, sub);
    }
  }

  lemma {:induction false} NothingToReplace(s: string, sub: string, text: string)
    requires sub != "" && Count(s, sub) == 0
    ensures Replace(s, sub, text) == s
    decreases |s|
  {
    if s != "" {
      NothingToReplace(s[1..], sub, text);
    }
  }

  lemma {:induction false} AtFirst(left: string, sub: string, right: string, text: string)
    requires sub != "" && forall i: nat :: i < |left| ==> !At(left + sub + right, i, sub)
    ensures Count(left + sub + right, sub) == 1 + Count(right, sub)
    ensures Replace(left + sub + right, sub, text) == left + text + Replace(right, sub, text)
  {
    var s := left + sub + right;
    if left == "" {
      assert s == sub + right && s[|sub|..] == right;
      assert At(s, 0, sub);
    } else {
      var shorter := left[1..] + sub + right;
      assert s[1..] == shorter;
      forall i: nat | i < |left[1..]| ensures !At(shorter, i, sub) {
        AtShift(s, 1, i, sub);
        assert !At(s, 1 + i, sub);
      }
      AtFirst(left[1..], sub, right, text);
      assert !At(s, 0, sub);
      Reassociate(left, text, Replace(right, sub, text));
    }
  }

  lemma Reassociate(left: string, a: string, b: string)
    requires left != ""
    ensures [left[0]] + (left[1..] + a + b) == left + a + b
  {
  }

  /** With a count of one, replacing puts the new text in the place of the leftmost occurrence and
      keeps all else; every other occurrence, if any, overlaps that one. */
  lemma ReplaceOnly(s: string, sub: string, text: string)
    requires sub != "" && Count(s, sub) == 1
    ensures var k := |Before(s, sub)|;
            && At(s, k, sub) && Replace(s, sub, text) == s[..k] + text + s[k + |sub|..]
            && forall i: nat :: At(s, i, sub) ==> k <= i < k + |sub|
  {
    BeforeFirst(s, sub);
    var k := |Before(s, sub)|;
    var right := s[k + |sub|..];
    assert s == s[..k] + sub + right;
    forall i: nat | i < k ensures !At(s, i, sub) {
      BeforeIsFirst(s, sub, i);
    }
    AtFirst(s[..k], sub, right, text);
    NothingToReplace(right, sub, text);
    forall i: nat | At(s, i, sub) ensures k <= i < k + |sub| {
      if i >= k + |sub| {
        NoneBehind(s, sub, k, i);
      }
    }
  }

  lemma NoneBehind(s: string, sub: string, k: nat, i: nat)
    requires sub != "" && k + |sub| <= |s| && Count(s[k + |sub|..], sub) == 0 && i >= k + |sub|
    ensures !At(s, i, sub)
  {
    var right := s[k + |sub|..];
    AtShift(s, k + |sub|, i - (k + |sub|), sub);
    CountZero(right, sub);
  }

  ghost predicate OccursOnce(s: string, sub: string) {
    exists i: nat :: At(s, i, sub) && forall j: nat :: At(s, j, sub) ==> j == i
  }

  /** A shorter text that `sub` both starts and ends with. */
  ghost predicate HasBorder(sub: string) {
    exists b :: 0 < b < |sub| && Border(sub, b)
  }

  ghost predicate Border(sub: string, b: nat) {
    b <= |sub| && sub[..b] == sub[|sub| - b..]
  }

  /** Two overlapping occurrences make a border. */
  lemma OverlapMakesBorder(s: string, sub: string, k: nat, i: nat)
    requires At(s, k, sub) && At(s, i, sub) && k < i < k + |sub|
    ensures HasBorder(sub)
  {
    var b := k + |sub| - i;
    var first, second := s[k..k + |sub|], s[i..i + |sub|];
    assert first == sub && second == sub;
    forall j | 0 <= j < b ensures sub[j] == sub[|sub| - b + j] {
      var m := |sub| - b + j;
      assert second[j] == s[i + j] && first[m] == s[k + m] && k + m == i + j;
    }
    assert sub[..b] == sub[|sub| - b..];
    assert Border(sub, b);
  }

  lemma BorderOverlaps(sub: string, b: nat)
    requires 0 < b < |sub| && Border(sub, b)
    ensures At(sub + sub[b..], 0, sub) && At(sub + sub[b..], |sub| - b, sub)
  {
    var s := sub + sub[b..];
    var k := |sub| - b;
    forall j | 0 <= j < |sub| ensures s[k + j] == sub[j] {
      if j < b {
        assert sub[..b][j] == sub[k..][j];
      } else {
        assert s[k + j] == sub[b..][j - b];
      }
    }
    assert s[k..k + |sub|] == sub;
    assert s[0..0 + |sub|] == sub;
  }

  lemma {:induction false} ShorterCountsNothing(s: string, sub: string)
    requires sub != "" && |s| < |sub|
    ensures Count(s, sub) == 0
  {
    if s != "" {
      ShorterCountsNothing(s[1..], sub);
    }
  }

  /** With a border, two overlapping copies are counted once. */
  lemma BorderIsCountedOnce(sub: string, b: nat)
    requires 0 < b < |sub| && Border(sub, b)
    ensures var s := sub + sub[b..];
            Count(s, sub) == 1 && At(s, 0, sub) && At(s, |sub| - b, sub)
  {
    var s := sub + sub[b..];
    BorderOverlaps(sub, b);
    assert s[|sub|..] == sub[b..];
    ShorterCountsNothing(sub[b..], sub);
  }

  lemma NoBorderNoOverlap(s: string, sub: string)
    requires sub != "" && !HasBorder(sub) && Count(s, sub) == 1
    ensures OccursOnce(s, sub)
  {
    ReplaceOnly(s, sub, "");
    var k := |Before(s, sub)|;
    forall i: nat | At(s, i, sub) ensures i == k {
      if i != k {
        OverlapMakesBorder(s, sub, k, i);
      }
    }
  }

  lemma BorderBreaksUniqueness(sub: string, b: nat)
    requires 0 < b < |sub| && Border(sub, b)
    ensures Count(sub + sub[b..], sub) == 1 && !OccursOnce(sub + sub[b..], sub)
  {
    BorderIsCountedOnce(sub, b);
    assert 0 != |sub| - b;
  }

  /** The test for a count of one tells a unique text exactly when the text has no border: otherwise
      there is a file in which it occurs twice and is replaced all the same. */
  lemma CountTellsUniqueWithoutBorder(sub: string)
    requires sub != ""
    ensures (forall s :: Count(s, sub) == 1 ==> OccursOnce(s, sub)) <==> !HasBorder(sub)
  {
    hide At, Count, OccursOnce, Border;
    if HasBorder(sub) {
      var b :| 0 < b < |sub| && Border(sub, b);
      BorderBreaksUniqueness(sub, b);
    } else {
      forall s | Count(s, sub) == 1 ensures OccursOnce(s, sub) {
        NoBorderNoOverlap(s, sub);
      }
    }
  }

  lemma OverlapInAaa()
    ensures Count("aaa", "aa") == 1 && At("aaa", 0, "aa") && At("aaa", 1, "aa")
  {
    var sub := "aa";
    assert sub[..1] == sub[1..] && sub + sub[1..] == "aaa";
    BorderIsCountedOnce(sub, 1);
  }

  // ----- str.expandtabs() and newline normalisation -----

  function Spaces(n: nat): string {
    seq(n, _ => ' ')
  }

  /** Tab stops every 8 columns; both line ends start a new line. */
  function ExpandTabs(s: string, column: nat): (r: string)
    ensures |r| >= |s|
  {
    if s == "" then ""
    else if s[0] == '\t' then
      var width := 8 - column % 8;
      Spaces(width) + ExpandTabs(s[1..], column + width)
    else if s[0] == '\n' || s[0] == '\r' then [s[0]] + ExpandTabs(s[1..], 0)
    else [s[0]] + ExpandTabs(s[1..], column + 1)
  }

  lemma {:induction false} NoTabsLeft(s: string, column: nat)
    ensures '\t' !in ExpandTabs(s, column)
    ensures forall c :: c in ExpandTabs(s, column) ==> c == ' ' || c in s
  {
    if s != "" {
      var column' := if s[0] == '\t' then column + (8 - column % 8)
                     else if s[0] == '\n' || s[0] == '\r' then 0 else column + 1;
      NoTabsLeft(s[1..], column');
    }
  }

  lemma {:induction false} NothingToExpand(s: string, column: nat)
    ensures ExpandTabs(s, column) == s <==> '\t' !in s
  {
    if s != "" {
      NothingToExpand(s[1..], if s[0] == '\n' || s[0] == '\r' then 0 else column + 1);
      NoTabsLeft(s, column);
      assert s == [s[0]] + s[1..];
    }
  }

  lemma {:induction false} ExpandPrefix(a: string, b: string, column: nat) returns (rest: string)
    ensures ExpandTabs(a + b, column) == ExpandTabs(a, column) + rest
  {
    if a == "" {
      assert a + b == b;
      rest := ExpandTabs(b, column);
    } else {
      assert (a + b)[1..] == a[1..] + b && (a + b)[0] == a[0];
      var column' := if a[0] == '\t' then column + (8 - column % 8)
                     else if a[0] == '\n' || a[0] == '\r' then 0 else column + 1;
      rest := ExpandPrefix(a[1..], b, column');
    }
  }

  function Expanded(c: char, column: nat): string {
    if c == '\t' then Spaces(8 - column % 8) else [c]
  }

  lemma ExpandCons(c: char, s: string, column: nat)
    requires c != '\n' && c != '\r'
    ensures ExpandTabs([c] + s, column) == Expanded(c, column) + ExpandTabs(s, column + |Expanded(c, column)|)
  {
    assert ([c] + s)[1..] == s && ([c] + s)[0] == c;
  }

  /** Within a line, what follows a text is expanded from the column where that text's expansion ends. */
  lemma {:induction false} ExpandConcat(a: string, b: string, column: nat)
    requires '\n' !in a && '\r' !in a
    ensures ExpandTabs(a + b, column) == ExpandTabs(a, column) + ExpandTabs(b, column + |ExpandTabs(a, column)|)
  {
    hide ExpandTabs, Expanded;
    if a == "" {
      assert a + b == b;
      ExpandNothing(column);
    } else {
      var head := Expanded(a[0], column);
      ExpandCons(a[0], a[1..], column);
      ExpandCons(a[0], a[1..] + b, column);
      assert [a[0]] + a[1..] == a && [a[0]] + (a[1..] + b) == a + b;
      ExpandConcat(a[1..], b, column + |head|);
      var first := ExpandTabs(a[1..], column + |head|);
      Joined(head, first, ExpandTabs(b, column + |head| + |first|));
    }
  }

  lemma ExpandNothing(column: nat)
    ensures ExpandTabs("", column) == ""
  {
  }

  lemma Joined(a: string, b: string, c: string)
    ensures a + (b + c) == (a + b) + c && |a + b| == |a| + |b|
  {
  }

  /** A tab fills the line with one to eight blanks up to the next multiple of eight. */
  lemma TabReachesStop(line: string)
    requires '\n' !in line && '\r' !in line
    ensures var before, after := |ExpandTabs(line, 0)|, |ExpandTabs(line + "\t", 0)|;
            after % 8 == 0 && before < after <= before + 8
    ensures forall i :: |ExpandTabs(line, 0)| <= i < |ExpandTabs(line + "\t", 0)| ==>
              ExpandTabs(line + "\t", 0)[i] == ' '
  {
    ExpandConcat(line, "\t", 0);
    var column := |ExpandTabs(line, 0)|;
    assert "\t"[1..] == "";
    assert ExpandTabs("\t", column) == Spaces(8 - column % 8) + ExpandTabs("", column + (8 - column % 8));
    assert ExpandTabs("\t", column) == Spaces(8 - column % 8);
  }

  /** Expanding tabs neither adds nor removes a line. */
  lemma {:induction false} ExpandKeepsLines(s: string, column: nat)
    ensures Newlines(ExpandTabs(s, column)) == Newlines(s)
  {
    if s != "" {
      var width := 8 - column % 8;
      var column' := if s[0] == '\t' then column + width
                     else if s[0] == '\n' || s[0] == '\r' then 0 else column + 1;
      ExpandKeepsLines(s[1..], column');
      if s[0] == '\t' {
        SpacesHaveNoNewline(width);
        NewlinesConcat(Spaces(width), ExpandTabs(s[1..], column'));
      }
    }
  }

  /** Every line is expanded by itself: a line end starts again at column 0. */
  lemma {:induction false} ExpandLineByLine(a: string, end: char, b: string, column: nat)
    requires end == '\n' || end == '\r'
    ensures ExpandTabs(a + [end] + b, column) == ExpandTabs(a, column) + [end] + ExpandTabs(b, 0)
  {
    if a == "" {
      assert a + [end] + b == [end] + b && ([end] + b)[1..] == b;
    } else {
      assert (a + [end] + b)[1..] == a[1..] + [end] + b && (a + [end] + b)[0] == a[0];
      var column' := if a[0] == '\t' then column + (8 - column % 8)
                     else if a[0] == '\n' || a[0] == '\r' then 0 else column + 1;
      ExpandLineByLine(a[1..], end, b, column');
      var head := if a[0] == '\t' then Spaces(8 - column % 8) else [a[0]];
      assert head + (ExpandTabs(a[1..], column') + [end] + ExpandTabs(b, 0)) ==
             head + ExpandTabs(a[1..], column') + [end] + ExpandTabs(b, 0);
    }
  }

  lemma {:induction false} SpacesHaveNoNewline(n: nat)
    ensures Newlines(Spaces(n)) == 0
  {
    if n > 0 {
      assert Spaces(n)[1..] == Spaces(n - 1);
      SpacesHaveNoNewline(n - 1);
    }
  }

  function NormalNewlines(s: string): string {
    Replace(Replace(s, "\r\n", "\n"), "\r", "\n")
  }

  lemma {:induction false} NoReturnsLeft(s: string)
    ensures '\r' !in Replace(s, "\r", "\n")
    decreases |s|
  {
    if s != "" {
      NoReturnsLeft(s[1..]);
    }
  }

  /** Every CR LF and every other CR as one LF, in one pass. */
  function OneKindOfEnd(s: string): string {
    if s == "" then ""
    else if s[0] != '\r' then [s[0]] + OneKindOfEnd(s[1..])
    else if |s| >= 2 && s[1] == '\n' then "\n" + OneKindOfEnd(s[2..])
    else "\n" + OneKindOfEnd(s[1..])
  }

  /** The two replacements do what one pass over the text does. */
  lemma {:induction false} NormalInOnePass(s: string)
    ensures NormalNewlines(s) == OneKindOfEnd(s)
    decreases |s|
  {
    if s != "" {
      var two := |s| >= 2 && s[0] == '\r' && s[1] == '\n';
      var head, rest := if two then "\n" else [s[0]], if two then s[2..] else s[1..];
      NormalInOnePass(rest);
      assert At(s, 0, "\r\n") <==> two by {
        assert |s| >= 2 ==> s[0..2] == [s[0], s[1]];
      }
      var inner := Replace(rest, "\r\n", "\n");
      assert Replace(s, "\r\n", "\n") == head + inner;
      assert (head + inner)[1..] == inner && (head + inner)[0..1] == head;
    }
  }

  lemma NothingToNormalize(s: string)
    ensures NormalNewlines(s) == s <==> '\r' !in s
  {
    NoReturnsLeft(Replace(s, "\r\n", "\n"));
    if '\r' !in s {
      NoReturnNoMatch(s, "\r\n");
      NoReturnNoMatch(s, "\r");
      NothingToReplace(s, "\r\n", "\n");
      NothingToReplace(s, "\r", "\n");
    }
  }

  lemma NoReturnNoMatch(s: string, sub: string)
    requires '\r' !in s && sub != "" && sub[0] == '\r'
    ensures Count(s, sub) == 0
  {
    forall i: nat ensures !At(s, i, sub) {
      if i + |sub| <= |s| {
        assert s[i..i + |sub|][0] == s[i] != '\r';
      }
    }
    CountZero(s, sub);
  }
}
