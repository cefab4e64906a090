/**
 * The pieces of Rust's `str` API that the settings reader and writer use:
 * `trim`, `starts_with`, `to_lowercase` (ASCII only), `split` on one
 * character, `replace("\r\n", "\n")`, and the two ways lines and tokens are
 * glued back together (a separator between items, a terminator after each).
 */
module Strings {

  /** Rust's `char::is_whitespace`: the characters with the Unicode White_Space property. */
  predicate IsWhitespace(c: char) {
    ('\t' <= c <= '\r') || c == ' ' || c == '\U{85}' || c == '\U{A0}' || c == '\U{1680}'
    || ('\U{2000}' <= c <= '\U{200A}') || c == '\U{2028}' || c == '\U{2029}'
    || c == '\U{202F}' || c == '\U{205F}' || c == '\U{3000}'
  }

  /** Every character is whitespace (so `trim` leaves nothing). */
  predicate IsBlank(s: string) {
    forall i :: 0 <= i < |s| ==> IsWhitespace(s[i])
  }

  /** No whitespace at either end: the shape of every result of `Trim`. */
  predicate IsTrimmed(s: string) {
    s == [] || (!IsWhitespace(s[0]) && !IsWhitespace(s[|s| - 1]))
  }

  /** Rust's `str::trim_start`. */
  function TrimStart(s: string): string {
    if s != [] && IsWhitespace(s[0]) then TrimStart(s[1..]) else s
  }

  /** Rust's `str::trim_end`. */
  function TrimEnd(s: string): string {
    if s != [] && IsWhitespace(s[|s| - 1]) then TrimEnd(s[..|s| - 1]) else s
  }

  /** Rust's `str::trim`: whitespace removed from both ends. */
  function Trim(s: string): string {
    TrimEnd(TrimStart(s))
  }

  /** `trim_start` removes a blank prefix and stops at the first other character. */
  lemma {:induction false} TrimStartShape(s: string)
    ensures |TrimStart(s)| <= |s| && TrimStart(s) == s[|s| - |TrimStart(s)|..]
    ensures IsBlank(s[..|s| - |TrimStart(s)|])
    ensures TrimStart(s) != [] ==> !IsWhitespace(TrimStart(s)[0])
  {
    if s != [] && IsWhitespace(s[0]) {
      TrimStartShape(s[1..]);
      var k := |s| - |TrimStart(s)|;
      assert s[..k] == [s[0]] + s[1..][..k - 1];
    }
  }

  /** `trim_end` removes a blank suffix and keeps the first character if it is not whitespace. */
  lemma {:induction false} TrimEndShape(s: string)
    ensures |TrimEnd(s)| <= |s| && TrimEnd(s) == s[..|TrimEnd(s)|]
    ensures IsBlank(s[|TrimEnd(s)|..])
    ensures TrimEnd(s) != [] ==> !IsWhitespace(TrimEnd(s)[|TrimEnd(s)| - 1])
    ensures s != [] && !IsWhitespace(s[0]) ==> TrimEnd(s) != [] && TrimEnd(s)[0] == s[0]
  {
    if s != [] && IsWhitespace(s[|s| - 1]) {
      var t := s[..|s| - 1];
      TrimEndShape(t);
      var k := |TrimEnd(s)|;
      assert s[k..] == t[k..] + [s[|s| - 1]];
    }
  }

  /** `trim` leaves no whitespace at either end, and nothing at all exactly when the input is blank. */
  lemma TrimShape(s: string)
    ensures IsTrimmed(Trim(s))
    ensures Trim(s) == [] <==> IsBlank(s)
    ensures |Trim(s)| <= |s|
  {
    TrimStartShape(s);
    var t := TrimStart(s);
    TrimEndShape(t);
    var k := |s| - |t|;
    if Trim(s) == [] {
      assert t == [];
      assert s[..k] == s;
    } else {
      assert !IsWhitespace(t[0]);
      assert !IsWhitespace(s[k]);
    }
  }

  /** The trimmed text is a slice of the input, starting after the leading whitespace. */
  lemma TrimSlice(s: string)
    ensures var d := |s| - |TrimStart(s)|;
      0 <= d && d + |Trim(s)| <= |s| && Trim(s) == s[d..d + |Trim(s)|]
  {
    TrimStartShape(s);
    TrimEndShape(TrimStart(s));
  }

  /** Trimming a string that has no whitespace at its ends changes nothing. */
  lemma TrimTrimmed(s: string)
    requires IsTrimmed(s)
    ensures Trim(s) == s
  {
  }

  /** `trim` is idempotent. */
  lemma TrimIdempotent(s: string)
    ensures Trim(Trim(s)) == Trim(s)
  {
    TrimShape(s);
    TrimTrimmed(Trim(s));
  }

  /** Rust's `str::starts_with` for a string pattern: the first `|prefix|` characters are the prefix. */
  predicate StartsWith(s: string, prefix: string) {
    |prefix| <= |s| && s[..|prefix|] == prefix
  }

  /** A string starts with any prefix of it. */
  lemma StartsWithAppend(prefix: string, rest: string)
    ensures StartsWith(prefix + rest, prefix)
  {
    assert (prefix + rest)[..|prefix|] == prefix;
  }

  /** A string does not start with a pattern it differs from at some position. */
  lemma StartsWithDiffer(s: string, prefix: string, k: nat)
    requires k < |s| && k < |prefix| && s[k] != prefix[k]
    ensures !StartsWith(s, prefix)
  {
    if |prefix| <= |s| {
      assert s[..|prefix|][k] == s[k];
    }
  }

  /** Lower-casing of one character, ASCII letters only. */
  function LowerChar(c: char): char {
    if 'A' <= c <= 'Z' then (c as int + 32) as char else c
  }

  /** `to_lowercase`, restricted to ASCII letters; every other character is kept. */
  function Lower(s: string): string {
    seq(|s|, i requires 0 <= i < |s| => LowerChar(s[i]))
  }

  /** Lower-casing, character by character. */
  lemma LowerOf(t: string, u: string)
    requires |t| == |u| && forall i :: 0 <= i < |t| ==> LowerChar(t[i]) == u[i]
    ensures Lower(t) == u
  {
  }

  /** Lower-casing twice is lower-casing once. */
  lemma LowerIdempotent(s: string)
    ensures Lower(Lower(s)) == Lower(s)
  {
  }

  /** Rust's `str::split` on one character: every piece, empty ones included. */
  function Split(s: string, sep: char): (pieces: seq<string>)
    ensures |pieces| >= 1
    ensures forall i :: 0 <= i < |pieces| ==> sep !in pieces[i]
  {
    if s == [] then [[]]
    else
      var rest := Split(s[1..], sep);
      if s[0] == sep then [[]] + rest else [[s[0]] + rest[0]] + rest[1..]
  }

  /** The items with one separator between neighbours (Rust's `join`). */
  function Join(items: seq<string>, sep: char): string {
    if items == [] then []
    else if |items| == 1 then items[0]
    else items[0] + [sep] + Join(items[1..], sep)
  }

  /** Each item followed by `terminator` (what `writeln!` per line, or `e + ","` per entry, produce). */
  function Terminated(items: seq<string>, terminator: string): string {
    if items == [] then [] else items[0] + terminator + Terminated(items[1..], terminator)
  }

  /** The sum of the lengths of the items. */
  function TotalLength(items: seq<string>): nat {
    if items == [] then 0 else |items[0]| + TotalLength(items[1..])
  }

  /** No item contains the character `c`. */
  predicate NoneContains(items: seq<string>, c: char) {
    forall i :: 0 <= i < |items| ==> c !in items[i]
  }

  /** Rust's `replace("\r\n", "\n")`: every CR LF pair, scanned left to right, becomes LF. */
  function ReplaceCrLf(s: string): string {
    if |s| >= 2 && s[0] == '\r' && s[1] == '\n' then "\n" + ReplaceCrLf(s[2..])
    else if s == [] then []
    else [s[0]] + ReplaceCrLf(s[1..])
  }

  /** `b` is `a`, or `a` followed by one carriage return. */
  predicate UpToCr(a: string, b: string) {
    b == a || b == a + ['\r']
  }

  /** Each piece of `ys` is the matching piece of `xs` or that followed by one carriage return. */
  predicate AllUpToCr(xs: seq<string>, ys: seq<string>) {
    |xs| == |ys| && forall i :: 0 <= i < |ys| ==> UpToCr(xs[i], ys[i])
  }

  /** A first piece in front of related pieces. */
  lemma AllUpToCrCons(a: string, b: string, xs: seq<string>, ys: seq<string>)
    requires UpToCr(a, b) && AllUpToCr(xs, ys)
    ensures AllUpToCr([a] + xs, [b] + ys)
  {
    assert forall i :: 0 < i < |ys| + 1 ==> ([b] + ys)[i] == ys[i - 1] && ([a] + xs)[i] == xs[i - 1];
  }

  /** One character in front of the first pieces. */
  lemma AllUpToCrPrepend(c: char, xs: seq<string>, ys: seq<string>)
    requires AllUpToCr(xs, ys) && |ys| >= 1
    ensures AllUpToCr([[c] + xs[0]] + xs[1..], [[c] + ys[0]] + ys[1..])
  {
    assert UpToCr([c] + xs[0], [c] + ys[0]) by {
      assert [c] + (xs[0] + ['\r']) == ([c] + xs[0]) + ['\r'];
    }
    assert AllUpToCr(xs[1..], ys[1..]) by {
      assert forall i :: 0 <= i < |ys[1..]| ==> ys[1..][i] == ys[i + 1] && xs[1..][i] == xs[i + 1];
    }
    AllUpToCrCons([c] + xs[0], [c] + ys[0], xs[1..], ys[1..]);
  }

  /** Splitting a text that starts with a character other than the separator. */
  lemma SplitCons(c: char, s: string, sep: char)
    requires c != sep
    ensures Split([c] + s, sep) == [[c] + Split(s, sep)[0]] + Split(s, sep)[1..]
  {
    assert ([c] + s)[1..] == s;
  }

  /**
   * Replacing CR LF by LF only drops a CR that ends a piece: the pieces split
   * at LF after the replacement are those before it, each with at most one
   * trailing CR removed, whatever mix of line ends the text has.
   */
  lemma {:induction false} SplitReplaceCrLf(t: string)
    ensures AllUpToCr(Split(ReplaceCrLf(t), '\n'), Split(t, '\n'))
    decreases |t|
  {
    if t == [] {
      assert UpToCr([], []);
    } else if |t| >= 2 && t[0] == '\r' && t[1] == '\n' {
      SplitReplaceCrLf(t[2..]);
      SplitCrLfStep(t);
    } else {
      SplitReplaceCrLf(t[1..]);
      SplitOtherStep(t);
    }
  }

  /** The step of `SplitReplaceCrLf` for a text that starts with CR LF. */
  lemma SplitCrLfStep(t: string)
    requires |t| >= 2 && t[0] == '\r' && t[1] == '\n'
    requires AllUpToCr(Split(ReplaceCrLf(t[2..]), '\n'), Split(t[2..], '\n'))
    ensures AllUpToCr(Split(ReplaceCrLf(t), '\n'), Split(t, '\n'))
  {
    var r := ReplaceCrLf(t[2..]);
    var n := ReplaceCrLf(t);
    assert n == "\n" + r;
    assert n[0] == '\n' && n[1..] == r;
    assert Split(n, '\n') == [[]] + Split(r, '\n');
    var u := t[1..];
    assert u[0] == '\n' && u[1..] == t[2..];
    assert Split(u, '\n') == [[]] + Split(t[2..], '\n');
    var rest := Split(t[2..], '\n');
    assert ([[]] + rest)[0] == [] && ([[]] + rest)[1..] == rest;
    assert [t[0]] + [] == ['\r'];
    assert Split(t, '\n') == [['\r']] + rest;
    assert UpToCr([], ['\r']);
    AllUpToCrCons([], ['\r'], Split(r, '\n'), Split(t[2..], '\n'));
  }

  /** The step of `SplitReplaceCrLf` for a text that does not start with CR LF. */
  lemma SplitOtherStep(t: string)
    requires t != [] && !(|t| >= 2 && t[0] == '\r' && t[1] == '\n')
    requires AllUpToCr(Split(ReplaceCrLf(t[1..]), '\n'), Split(t[1..], '\n'))
    ensures AllUpToCr(Split(ReplaceCrLf(t), '\n'), Split(t, '\n'))
  {
    var r := ReplaceCrLf(t[1..]);
    assert ReplaceCrLf(t) == [t[0]] + r;
    SplitFirst(t, r);
  }

  /** Related pieces stay related when the text after the first character of `t` is replaced by a related one. */
  lemma SplitFirst(t: string, r: string)
    requires t != []
    requires AllUpToCr(Split(r, '\n'), Split(t[1..], '\n'))
    ensures AllUpToCr(Split([t[0]] + r, '\n'), Split(t, '\n'))
  {
    var c := t[0];
    assert ([c] + r)[0] == c && ([c] + r)[1..] == r;
    if c == '\n' {
      assert Split([c] + r, '\n') == [[]] + Split(r, '\n');
      assert Split(t, '\n') == [[]] + Split(t[1..], '\n');
      assert UpToCr([], []);
      AllUpToCrCons([], [], Split(r, '\n'), Split(t[1..], '\n'));
    } else {
      SplitCons(c, r, '\n');
      AllUpToCrPrepend(c, Split(r, '\n'), Split(t[1..], '\n'));
    }
  }

  /** A trailing carriage return is whitespace: `trim_start` keeps it unless it leaves nothing. */
  lemma {:induction false} TrimStartCr(x: string)
    ensures TrimStart(x + ['\r']) == TrimStart(x) + ['\r'] || (TrimStart(x) == [] && TrimStart(x + ['\r']) == [])
    decreases |x|
  {
    if x == [] {
      assert [] + ['\r'] == ['\r'];
      assert ['\r'][1..] == [];
    } else if IsWhitespace(x[0]) {
      assert (x + ['\r'])[1..] == x[1..] + ['\r'];
      TrimStartCr(x[1..]);
    }
  }

  /** `trim` drops a trailing carriage return. */
  lemma TrimCr(x: string)
    ensures Trim(x + ['\r']) == Trim(x)
  {
    TrimStartCr(x);
    var y := TrimStart(x);
    if TrimStart(x + ['\r']) == y + ['\r'] {
      assert (y + ['\r'])[..|y + ['\r']| - 1] == y;
    }
  }

  /** Pieces that differ by a trailing carriage return trim to the same text. */
  lemma UpToCrTrim(a: string, b: string)
    requires UpToCr(a, b)
    ensures Trim(a) == Trim(b)
  {
    if b != a {
      TrimCr(a);
    }
  }

  /** Splitting never loses a character: joining the pieces back gives the input. */
  lemma {:induction false} JoinSplit(s: string, sep: char)
    ensures Join(Split(s, sep), sep) == s
  {
    if s != [] {
      JoinSplit(s[1..], sep);
      var rest := Split(s[1..], sep);
      if s[0] == sep {
        assert Split(s, sep) == [[]] + rest;
        assert Join(Split(s, sep), sep) == [] + [sep] + Join(rest, sep);
        assert s == [s[0]] + s[1..];
      } else {
        var pieces := Split(s, sep);
        assert pieces == [[s[0]] + rest[0]] + rest[1..];
        if |rest| == 1 {
          assert Join(rest, sep) == rest[0];
        } else {
          assert Join(rest, sep) == rest[0] + [sep] + Join(rest[1..], sep);
          assert pieces[1..] == rest[1..];
        }
        assert s == [s[0]] + s[1..];
      }
    }
  }

  /** A string without the separator is one piece. */
  lemma {:induction false} SplitNoSeparator(s: string, sep: char)
    requires sep !in s
    ensures Split(s, sep) == [s]
  {
    if s != [] {
      SplitNoSeparator(s[1..], sep);
      assert s == [s[0]] + s[1..];
    }
  }

  /** Splitting at the first separator. */
  lemma {:induction false} SplitAtSeparator(a: string, b: string, sep: char)
    requires sep !in a
    ensures Split(a + [sep] + b, sep) == [a] + Split(b, sep)
  {
    if a == [] {
      assert a + [sep] + b == [sep] + b;
      assert ([sep] + b)[1..] == b;
    } else {
      SplitAtSeparator(a[1..], b, sep);
      assert (a + [sep] + b)[1..] == a[1..] + [sep] + b;
      assert a == [a[0]] + a[1..];
    }
  }

  /** Splitting undoes joining when no item contains the separator. */
  lemma {:induction false} SplitJoin(items: seq<string>, sep: char)
    requires items != []
    requires NoneContains(items, sep)
    ensures Split(Join(items, sep), sep) == items
  {
    if |items| == 1 {
      SplitNoSeparator(items[0], sep);
    } else {
      SplitJoin(items[1..], sep);
      SplitAtSeparator(items[0], Join(items[1..], sep), sep);
      assert items == [items[0]] + items[1..];
    }
  }

  /** Splitting terminated items gives the items back, plus the empty piece after the last terminator. */
  lemma {:induction false} SplitTerminated(items: seq<string>, sep: char)
    requires NoneContains(items, sep)
    ensures Split(Terminated(items, [sep]), sep) == items + [[]]
  {
    if items != [] {
      SplitTerminated(items[1..], sep);
      SplitAtSeparator(items[0], Terminated(items[1..], [sep]), sep);
      assert items == [items[0]] + items[1..];
    }
  }

  /** Terminating distributes over concatenation. */
  lemma {:induction false} TerminatedConcat(a: seq<string>, b: seq<string>, terminator: string)
    ensures Terminated(a + b, terminator) == Terminated(a, terminator) + Terminated(b, terminator)
  {
    if a != [] {
      TerminatedConcat(a[1..], b, terminator);
      assert (a + b)[1..] == a[1..] + b;
    } else {
      assert a + b == b;
    }
  }

  /** The terminated text is the items' characters plus one terminator per item. */
  lemma {:induction false} TerminatedLength(items: seq<string>, terminator: string)
    ensures |Terminated(items, terminator)| == TotalLength(items) + |items| * |terminator|
  {
    if items != [] {
      TerminatedLength(items[1..], terminator);
      assert |items| * |terminator| == |terminator| + (|items| - 1) * |terminator|;
    }
  }

  /** Joined text is the items' characters plus one separator between each pair. */
  lemma {:induction false} JoinLength(items: seq<string>, sep: char)
    requires items != []
    ensures |Join(items, sep)| == TotalLength(items) + |items| - 1
  {
    if |items| > 1 {
      JoinLength(items[1..], sep);
    } else {
      assert TotalLength(items[1..]) == 0;
    }
  }

  /** A CR-free prefix passes through the CR LF replacement untouched. */
  lemma {:induction false} ReplaceCrLfPrefix(a: string, b: string)
    requires '\r' !in a
    ensures ReplaceCrLf(a + b) == a + ReplaceCrLf(b)
  {
    if a != [] {
      ReplaceCrLfPrefix(a[1..], b);
      assert (a + b)[1..] == a[1..] + b;
      assert a == [a[0]] + a[1..];
    } else {
      assert a + b == b;
    }
  }

  /** Lines written with CR LF endings read back, after the replacement, as LF-terminated lines. */
  lemma {:induction false} ReplaceCrLfTerminated(items: seq<string>)
    requires NoneContains(items, '\r')
    ensures ReplaceCrLf(Terminated(items, "\r\n")) == Terminated(items, "\n")
  {
    if items != [] {
      ReplaceCrLfTerminated(items[1..]);
      var rest := Terminated(items[1..], "\r\n");
      assert Terminated(items, "\r\n") == items[0] + ("\r\n" + rest);
      ReplaceCrLfPrefix(items[0], "\r\n" + rest);
      assert ("\r\n" + rest)[2..] == rest;
    }
  }

  /** Text without CR is left unchanged by the replacement. */
  lemma ReplaceCrLfNoCr(s: string)
    requires '\r' !in s
    ensures ReplaceCrLf(s) == s
  {
    ReplaceCrLfPrefix(s, []);
    assert s + [] == s;
  }

  /** A character in no item and not in the terminator is not in the terminated text. */
  lemma {:induction false} TerminatedAvoids(items: seq<string>, terminator: string, c: char)
    requires NoneContains(items, c) && c !in terminator
    ensures c !in Terminated(items, terminator)
  {
    if items != [] {
      TerminatedAvoids(items[1..], terminator, c);
    }
  }

  /** The lengths of two lists of items add up. */
  lemma {:induction false} TotalLengthConcat(a: seq<string>, b: seq<string>)
    ensures TotalLength(a + b) == TotalLength(a) + TotalLength(b)
  {
    if a == [] {
      assert a + b == b;
    } else {
      TotalLengthConcat(a[1..], b);
      assert (a + b)[1..] == a[1..] + b;
    }
  }

  /** Joining and then adding one more separator is terminating every item with it. */
  lemma {:induction false} JoinTerminated(items: seq<string>, sep: char)
    requires items != []
    ensures Join(items, sep) + [sep] == Terminated(items, [sep])
  {
    if |items| == 1 {
      assert items[1..] == [];
    } else {
      JoinTerminated(items[1..], sep);
    }
  }

  /** Joined text starts with the first item and ends with the last one. */
  lemma {:induction false} JoinEnds(items: seq<string>, sep: char)
    requires items != []
    ensures StartsWith(Join(items, sep), items[0])
    ensures var j, e := Join(items, sep), items[|items| - 1];
      |e| <= |j| && j[|j| - |e|..] == e
  {
    var j := Join(items, sep);
    if |items| > 1 {
      JoinEnds(items[1..], sep);
      var rest := Join(items[1..], sep);
      assert j == items[0] + ([sep] + rest);
      assert j[..|items[0]|] == items[0];
      assert j[|j| - |rest|..] == rest;
    }
  }

  /** Appends every item followed by `terminator` to `prefix`, one item at a time. */
  method AppendTerminated(prefix: string, items: seq<string>, terminator: string) returns (text: string)
    ensures text == prefix + Terminated(items, terminator)
  {
    text := prefix;
    var i := 0;
    while i < |items|
      invariant 0 <= i <= |items|
      invariant text == prefix + Terminated(items[..i], terminator)
    {
      TerminatedConcat(items[..i], [items[i]], terminator);
      assert items[..i + 1] == items[..i] + [items[i]];
      text := text + items[i] + terminator;
      i := i + 1;
    }
    assert items[..i] == items;
  }
}
