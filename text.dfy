/** The Python string builtins the core relies on, restricted to ASCII:
    `str.lower`, `str.strip`, `str.startswith`/`endswith`, `in`, `str.find`,
    `str.split`, `str.splitlines`, `str.isdigit` and `int`. */
module Text {
  import opened Wrappers
  import opened Seqs

  /** `c.isspace()` for an ASCII character: tab, line feed, vertical tab, form feed,
      carriage return, the four separators 0x1C-0x1F, and space. */
  predicate IsSpace(c: char) {
    ('\t' <= c <= '\r') || ('\U{1C}' <= c <= '\U{1F}') || c == ' '
  }

  /** The ASCII characters at which `str.splitlines` breaks a line
      (`\r\n` counts as one boundary). */
  predicate IsLineBreak(c: char) {
    ('\n' <= c <= '\r') || ('\U{1C}' <= c <= '\U{1E}')
  }

  predicate IsDigit(c: char) {
    '0' <= c <= '9'
  }

  function LowerChar(c: char): (r: char)
    ensures 'A' <= c <= 'Z' ==> 'a' <= r <= 'z'
    ensures !('A' <= c <= 'Z') ==> r == c
  {
    if 'A' <= c <= 'Z' then (c as int + 32) as char else c
  }

  /** `s.lower()`. */
  function Lower(s: string): (r: string)
    ensures |r| == |s|
    ensures forall i :: 0 <= i < |s| ==> r[i] == LowerChar(s[i])
  {
    seq(|s|, i requires 0 <= i < |s| => LowerChar(s[i]))
  }

  /** `s.startswith(prefix)`. */
  predicate StartsWith(s: string, prefix: string) {
    |prefix| <= |s| && s[..|prefix|] == prefix
  }

  /** `s.endswith(suffix)`. */
  predicate EndsWith(s: string, suffix: string) {
    |suffix| <= |s| && s[|s| - |suffix|..] == suffix
  }

  predicate OccursAt(s: string, sub: string, i: int) {
    0 <= i && i + |sub| <= |s| && s[i..i + |sub|] == sub
  }

  /** The first occurrence of `sub` at or after `from`. */
  function FindFrom(s: string, sub: string, from: nat): (r: Option<nat>)
    ensures r.Some? ==> from <= r.value && OccursAt(s, sub, r.value)
    ensures r.Some? ==> forall j :: from <= j < r.value ==> !OccursAt(s, sub, j)
    ensures r.None? ==> forall j :: from <= j ==> !OccursAt(s, sub, j)
    decreases |s| - from
  {
    if from + |sub| > |s| then None
    else if s[from..from + |sub|] == sub then Some(from)
    else FindFrom(s, sub, from + 1)
  }

  /** `s.find(sub)`, None standing for -1. */
  function Find(s: string, sub: string): (r: Option<nat>)
    ensures r.Some? ==> OccursAt(s, sub, r.value)
    ensures r.Some? ==> forall j :: 0 <= j < r.value ==> !OccursAt(s, sub, j)
    ensures r.None? ==> forall j :: !OccursAt(s, sub, j)
  {
    FindFrom(s, sub, 0)
  }

  /** `sub in s`. */
  predicate Contains(s: string, sub: string) {
    Find(s, sub).Some?
  }

  /** `s.split(sep)`: the pieces between the non-overlapping occurrences of `sep`,
      found from left to right. */
  function Split(s: string, sep: string): (parts: seq<string>)
    requires sep != []
    ensures |parts| >= 1
    ensures Contains(s, sep) <==> |parts| >= 2
    decreases |s|
  {
    match Find(s, sep)
    case None => [s]
    case Some(i) => [s[..i]] + Split(s[i + |sep|..], sep)
  }

  /** `sep.join(parts)`. */
  function Join(parts: seq<string>, sep: string): string
    requires |parts| >= 1
  {
    if |parts| == 1 then parts[0] else parts[0] + sep + Join(parts[1..], sep)
  }

  /** A split at the first occurrence: the text before it, then the split of the rest. */
  lemma SplitUnfold(s: string, sep: string, i: nat)
    requires sep != [] && Find(s, sep) == Some(i)
    ensures Split(s, sep) == [s[..i]] + Split(s[i + |sep|..], sep)
    ensures s == s[..i] + sep + s[i + |sep|..]
  {
    CutTwice(s, i, i + |sep|);
  }

  /** Joining the pieces of a split gives back the original text. */
  lemma {:induction false} SplitJoin(s: string, sep: string)
    requires sep != []
    ensures Join(Split(s, sep), sep) == s
    decreases |s|
  {
    var found := Find(s, sep);
    if found.Some? {
      var i := found.value;
      var rest := s[i + |sep|..];
      SplitUnfold(s, sep, i);
      SplitJoin(rest, sep);
      var parts := Split(s, sep);
      assert parts[0] == s[..i] && parts[1..] == Split(rest, sep);
    }
  }

  /** The first piece of a split is a prefix of the text, followed by the separator
      and the second piece when there is one. */
  lemma SplitHead(s: string, sep: string)
    requires sep != []
    ensures StartsWith(s, Split(s, sep)[0])
    ensures |Split(s, sep)| >= 2 ==> StartsWith(s, Split(s, sep)[0] + sep + Split(s, sep)[1])
  {
    SplitFirstPrefix(s, sep);
    var found := Find(s, sep);
    if found.Some? {
      var i := found.value;
      var rest := s[i + |sep|..];
      SplitUnfold(s, sep, i);
      SplitFirstPrefix(rest, sep);
      PrefixAfter(s[..i], sep, rest, Split(rest, sep)[0]);
    }
  }

  lemma SplitFirstPrefix(s: string, sep: string)
    requires sep != []
    ensures StartsWith(s, Split(s, sep)[0])
  {
    var found := Find(s, sep);
    if found.Some? {
      SplitUnfold(s, sep, found.value);
    }
  }

  lemma PrefixAfter(a: string, sep: string, rest: string, p: string)
    requires StartsWith(rest, p)
    ensures StartsWith(a + sep + rest, a + sep + p)
  {
    assert (a + sep + rest)[..|a + sep + p|] == a + sep + rest[..|p|];
  }

  /** The first piece of a split ends where the text ends or where the separator
      occurs. */
  lemma FirstPieceEnd(s: string, sep: string)
    requires sep != []
    ensures StartsWith(s, Split(s, sep)[0])
    ensures |Split(s, sep)[0]| == |s| || StartsWith(s[|Split(s, sep)[0]|..], sep)
  {
    var found := Find(s, sep);
    if found.Some? {
      var i := found.value;
      SplitUnfold(s, sep, i);
      assert s[i..][..|sep|] == s[i..i + |sep|];
    }
  }

  /** A prefix of a text that does not contain `sub` does not contain it either. */
  lemma PrefixOfFree(s: string, p: string, sub: string)
    requires StartsWith(s, p) && !Contains(s, sub)
    ensures !Contains(p, sub)
  {
    forall j | 0 <= j && j + |sub| <= |p|
      ensures !OccursAt(p, sub, j)
    {
      assert s[..|p|] == p;
      assert p[j..j + |sub|] == s[j..j + |sub|];
      assert !OccursAt(s, sub, j);
    }
  }

  lemma PrefixTransitive(s: string, p: string, q: string)
    requires StartsWith(s, p) && StartsWith(p, q)
    ensures StartsWith(s, q)
  {
    assert s[..|q|] == s[..|p|][..|q|];
  }

  /** A text in which `sub` occurs nowhere before `end` has no occurrence in `s[..end]`. */
  lemma PrefixFree(s: string, sub: string, end: nat)
    requires sub != [] && end <= |s|
    requires forall j :: 0 <= j < end ==> !OccursAt(s, sub, j)
    ensures !Contains(s[..end], sub)
  {
    if Contains(s[..end], sub) {
      var j := Find(s[..end], sub).value;
      assert s[..end][j..j + |sub|] == s[j..j + |sub|];
      assert OccursAt(s, sub, j);
    }
  }

  /** No piece of a split contains the separator. */
  lemma {:induction false} SplitPieceFree(s: string, sep: string, k: nat)
    requires sep != [] && k < |Split(s, sep)|
    ensures !Contains(Split(s, sep)[k], sep)
    decreases |s|
  {
    if k == 0 {
      SplitFirstFree(s, sep);
    } else {
      var i := Find(s, sep).value;
      SplitUnfold(s, sep, i);
      SplitPieceFree(s[i + |sep|..], sep, k - 1);
    }
  }

  lemma SplitFirstFree(s: string, sep: string)
    requires sep != []
    ensures !Contains(Split(s, sep)[0], sep)
  {
    var found := Find(s, sep);
    if found.Some? {
      SplitUnfold(s, sep, found.value);
      PrefixFree(s, sep, found.value);
    }
  }

  /** A text with exactly one occurrence of `sep`, at `i`, splits into the parts
      before and after it. */
  lemma SplitOnce(s: string, sep: string, i: nat)
    requires sep != [] && OccursAt(s, sep, i)
    requires forall j :: 0 <= j < i ==> !OccursAt(s, sep, j)
    requires !Contains(s[i + |sep|..], sep)
    ensures Split(s, sep) == [s[..i], s[i + |sep|..]]
  {
    FindIsFirst(s, sep, i);
    SplitUnfold(s, sep, i);
    assert Split(s[i + |sep|..], sep) == [s[i + |sep|..]];
  }

  /** `find` returns the first occurrence. */
  lemma FindIsFirst(s: string, sub: string, i: nat)
    requires OccursAt(s, sub, i)
    requires forall j :: 0 <= j < i ==> !OccursAt(s, sub, j)
    ensures Find(s, sub) == Some(i)
  {
  }

  /** The end of the line that starts at or before `from`: the first line break at
      or after `from`, or the length of `s`. */
  function LineEnd(s: string, from: nat): (i: nat)
    requires from <= |s|
    ensures from <= i <= |s|
    ensures i < |s| ==> IsLineBreak(s[i])
    ensures forall j :: from <= j < i ==> !IsLineBreak(s[j])
    decreases |s| - from
  {
    if from == |s| || IsLineBreak(s[from]) then from else LineEnd(s, from + 1)
  }

  /** `s.splitlines()`: no line keeps its terminator, a final terminator opens no
      new line, and the empty text has no lines. */
  function SplitLines(s: string): (lines: seq<string>)
    decreases |s|
  {
    if s == [] then []
    else
      var i := LineEnd(s, 0);
      if i == |s| then [s]
      else
        var next := if s[i] == '\r' && i + 1 < |s| && s[i + 1] == '\n' then i + 2 else i + 1;
        [s[..i]] + SplitLines(s[next..])
  }

  /** A non-empty text without line breaks is a single line. */
  lemma SingleLine(s: string)
    requires s != []
    requires forall j :: 0 <= j < |s| ==> !IsLineBreak(s[j])
    ensures SplitLines(s) == [s]
  {
    assert LineEnd(s, 0) == |s|;
  }

  /** `s.lstrip()`. */
  function TrimStart(s: string): (r: string)
    ensures |r| <= |s| && r == s[|s| - |r|..]
    ensures r != [] ==> !IsSpace(r[0])
    ensures forall j :: 0 <= j < |s| - |r| ==> IsSpace(s[j])
  {
    if s != [] && IsSpace(s[0]) then TrimStart(s[1..]) else s
  }

  /** `s.rstrip()`. */
  function TrimEnd(s: string): (r: string)
    ensures |r| <= |s| && r == s[..|r|]
    ensures r != [] ==> !IsSpace(r[|r| - 1])
    ensures forall j :: |r| <= j < |s| ==> IsSpace(s[j])
  {
    if s != [] && IsSpace(s[|s| - 1]) then TrimEnd(s[..|s| - 1]) else s
  }

  /** `s.strip()`: the text without its leading and trailing whitespace. */
  function Strip(s: string): (r: string)
    ensures |r| <= |s|
    ensures r != [] ==> !IsSpace(r[0]) && !IsSpace(r[|r| - 1])
  {
    TrimEnd(TrimStart(s))
  }

  /** Text that neither starts nor ends with whitespace is its own strip. */
  lemma StripUnchanged(s: string)
    requires s != [] ==> !IsSpace(s[0]) && !IsSpace(s[|s| - 1])
    ensures Strip(s) == s
  {
  }

  /** `s.isdigit()` for ASCII text. */
  predicate IsDigits(s: string) {
    |s| > 0 && forall i :: 0 <= i < |s| ==> IsDigit(s[i])
  }

  /** `int(s)` for a decimal numeral. */
  function ParseNat(s: string): nat
    requires forall i :: 0 <= i < |s| ==> IsDigit(s[i])
  {
    if s == [] then 0
    else
      assert IsDigit(s[|s| - 1]);
      10 * ParseNat(s[..|s| - 1]) + (s[|s| - 1] as int - '0' as int)
  }
}
