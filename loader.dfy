/**
 * The per-line rule of `CPU.load`: each line of a program file loses its
 * `#` comment and surrounding whitespace, blank results are skipped, and
 * every other line is parsed by Python's `int(line, 2)` and stored at the
 * next RAM address from 0.
 */
module Loader {
  import opened Wrappers
  import opened PyInt

  /** The characters Python's `str.strip()` removes (those for which `str.isspace()` holds). */
  const Whitespace: set<char> := {
    ' ', '\t', '\n', '\r', '\U{0B}', '\U{0C}', '\U{1C}', '\U{1D}', '\U{1E}', '\U{1F}',
    '\U{85}', '\U{A0}', '\U{1680}', '\U{2000}', '\U{2001}', '\U{2002}', '\U{2003}',
    '\U{2004}', '\U{2005}', '\U{2006}', '\U{2007}', '\U{2008}', '\U{2009}', '\U{200A}',
    '\U{2028}', '\U{2029}', '\U{202F}', '\U{205F}', '\U{3000}'
  }

  predicate IsSpace(c: char) { c in Whitespace }

  function TrimStart(s: string): (r: string)
    ensures |r| <= |s|
  {
    if |s| > 0 && IsSpace(s[0]) then TrimStart(s[1..]) else s
  }

  function TrimEnd(s: string): (r: string)
    ensures |r| <= |s|
  {
    if |s| > 0 && IsSpace(s[|s| - 1]) then TrimEnd(s[..|s| - 1]) else s
  }

  /** `str.strip()`. */
  function Strip(s: string): (r: string)
  {
    TrimEnd(TrimStart(s))
  }

  lemma {:induction false} TrimStartSpec(s: string)
    ensures var r := TrimStart(s);
      && r == s[|s| - |r|..]
      && (forall i :: 0 <= i < |s| - |r| ==> IsSpace(s[i]))
      && (r == [] || !IsSpace(r[0]))
  {
    if |s| > 0 && IsSpace(s[0]) {
      TrimStartSpec(s[1..]);
    }
  }

  lemma {:induction false} TrimEndSpec(s: string)
    ensures var r := TrimEnd(s);
      && r == s[..|r|]
      && (forall i :: |r| <= i < |s| ==> IsSpace(s[i]))
      && (r == [] || !IsSpace(r[|r| - 1]))
  {
    if |s| > 0 && IsSpace(s[|s| - 1]) {
      TrimEndSpec(s[..|s| - 1]);
    }
  }

  /**
   * `strip` keeps a contiguous part of the text, removes only whitespace
   * around it, and leaves no whitespace at either end.
   */
  lemma StripSpec(s: string)
    ensures var r, i := Strip(s), |s| - |TrimStart(s)|;
      && 0 <= i <= i + |r| <= |s| && r == s[i..i + |r|]
      && (forall k :: 0 <= k < i ==> IsSpace(s[k]))
      && (forall k :: i + |r| <= k < |s| ==> IsSpace(s[k]))
    ensures Strip(s) == [] || (!IsSpace(Strip(s)[0]) && !IsSpace(Strip(s)[|Strip(s)| - 1]))
  {
    var t := TrimStart(s);
    TrimStartSpec(s);
    TrimEndSpec(t);
    var r := Strip(s);
    var i := |s| - |t|;
    assert t == s[i..] && r == t[..|r|] && |r| <= |t|;
    assert r == s[i..i + |r|];
    assert forall k :: 0 <= k < i ==> IsSpace(s[k]);
    forall k | i + |r| <= k < |s|
      ensures IsSpace(s[k])
    {
      assert s[k] == t[k - i];
    }
    if r != [] {
      assert r[0] == t[0] && !IsSpace(r[|r| - 1]);
    }
  }

  /** `str.split('#')[0]`: the text before the first `#`. */
  function BeforeHash(s: string): (r: string)
    ensures '#' !in r && r <= s
    ensures r == s || s[|r|] == '#'
  {
    if |s| == 0 || s[0] == '#' then [] else [s[0]] + BeforeHash(s[1..])
  }

  /** `str.replace('\n', '')`. */
  function DropNewlines(s: string): (r: string)
    ensures '\n' !in r && |r| <= |s|
  {
    if |s| == 0 then []
    else (if s[0] == '\n' then [] else [s[0]]) + DropNewlines(s[1..])
  }

  /** `'#' in s`, by recursion on the text. */
  predicate HasHash(s: string) {
    |s| > 0 && (s[0] == '#' || HasHash(s[1..]))
  }

  lemma {:induction false} HasHashIff(s: string)
    ensures HasHash(s) <==> '#' in s
  {
    if |s| > 0 {
      HasHashIff(s[1..]);
      assert s == [s[0]] + s[1..];
    }
  }

  /** The text before the first `#` if there is one, otherwise the line without newlines. */
  function Clean(s: string): (r: string)
  {
    if |s| == 0 || s[0] == '#' then []
    else if s[0] == '\n' && !HasHash(s) then Clean(s[1..])
    else [s[0]] + Clean(s[1..])
  }

  /**
   * The text of one file line that the loader parses, empty when there is
   * none: leading whitespace is skipped one character at a time, then the
   * comment is cut and trailing whitespace removed. `CodeMeetsLoad` shows
   * this is `load`'s own `strip()` of the comment-free text.
   */
  function Code(line: string): (r: string)
    ensures r == [] || (!IsSpace(r[0]) && !IsSpace(r[|r| - 1]))
    decreases |line|
  {
    if |line| > 0 && IsSpace(line[0]) then Code(line[1..])
    else
      var c := Clean(line);
      CleanStart(line);
      TrimEndSpec(c);
      TrimEnd(c)
  }

  /** Unless it begins with `#`, the cleaned text begins with the line's first character. */
  lemma CleanStart(line: string)
    requires |line| == 0 || !IsSpace(line[0])
    ensures Clean(line) == [] || Clean(line)[0] == line[0]
  {
  }

  lemma {:induction false} CleanMeetsLoad(s: string)
    ensures Clean(s) == if HasHash(s) then BeforeHash(s) else DropNewlines(s)
  {
    if |s| > 0 && s[0] != '#' {
      CleanMeetsLoad(s[1..]);
    }
  }

  /** `Code` is the line as `load` computes it: `line.split('#')[0].strip()` or `line.replace('\n', '').strip()`. */
  lemma {:induction false} CodeMeetsLoad(line: string)
    ensures Code(line) == if HasHash(line) then Strip(BeforeHash(line)) else Strip(DropNewlines(line))
    decreases |line|
  {
    CleanMeetsLoad(line);
    var c := Clean(line);
    if |line| > 0 && IsSpace(line[0]) {
      CodeMeetsLoad(line[1..]);
      CleanMeetsLoad(line[1..]);
      var t := Clean(line[1..]);
      assert HasHash(line) == HasHash(line[1..]);
      assert c == t || c == [line[0]] + t;
      if c != t {
        assert c[0] == line[0] && c[1..] == t;
      }
      assert TrimStart(c) == TrimStart(t);
    } else {
      assert c == [] || c[0] == line[0];
      assert TrimStart(c) == c;
    }
  }

  // ---------------------------------------------------------------------
  // int(text, 2)

  predicate IsBit(c: char) { c == '0' || c == '1' }

  /**
   * The value of a run of binary digits with single underscores between
   * them (`d ('_'? d)*`), or `None` for any other text.
   */
  function Digits(s: string): (r: Option<nat>)
    decreases |s|
  {
    if |s| == 0 || !IsBit(s[|s| - 1]) then None
    else
      var bit := if s[|s| - 1] == '1' then 1 else 0;
      if |s| == 1 then Some(bit)
      else
        var k := if s[|s| - 2] == '_' then |s| - 2 else |s| - 1;
        match Digits(s[..k])
        case None => None
        case Some(high) => Some(2 * high + bit)
  }

  /** The length of an optional `0b`/`0B` prefix, counting one underscore that may follow it. */
  function PrefixLength(s: string): (n: nat)
    ensures n <= |s|
  {
    if |s| >= 2 && s[0] == '0' && (s[1] == 'b' || s[1] == 'B') then
      if |s| > 2 && s[2] == '_' then 3 else 2
    else 0
  }

  /** An unsigned literal: digits after an optional prefix. */
  function ParseUnsigned(s: string): (r: Option<nat>)
  {
    Digits(s[PrefixLength(s)..])
  }

  /** `int(text, 2)` on an already stripped text: an optional sign, then an unsigned literal; `None` where Python raises ValueError. */
  function ParseBase2(text: string): (r: Option<int>)
    ensures r.Some? ==> |text| > 0
    ensures r.Some? && r.value < 0 ==> text[0] == '-'
    decreases |text|
  {
    if |text| > 0 && (text[0] == '-' || text[0] == '+') then
      var rest := text[1..];
      if |rest| > 0 && (rest[0] == '-' || rest[0] == '+') then None
      else match ParseBase2(rest)
        case None => None
        case Some(v) => Some(if text[0] == '-' then -v else v)
    else match ParseUnsigned(text)
      case None => None
      case Some(v) => Some(v)
  }

  /** The characters a binary literal may contain. */
  predicate LiteralChar(c: char) {
    IsBit(c) || c == '_' || c == 'b' || c == 'B' || c == '-' || c == '+'
  }

  lemma {:induction false} DigitsChars(s: string)
    requires Digits(s).Some?
    ensures |s| > 0 && forall i :: 0 <= i < |s| ==> IsBit(s[i]) || s[i] == '_'
    decreases |s|
  {
    if |s| > 1 {
      var k := if s[|s| - 2] == '_' then |s| - 2 else |s| - 1;
      DigitsChars(s[..k]);
      forall i | 0 <= i < |s|
        ensures IsBit(s[i]) || s[i] == '_'
      {
        if i < k {
          assert s[i] == s[..k][i];
        }
      }
    }
  }

  /** The low `n` bits of `v`, most significant first: how the program files write each byte. */
  function Bits(v: nat, n: nat): (s: string)
    ensures |s| == n && forall i :: 0 <= i < n ==> IsBit(s[i])
  {
    if n == 0 then [] else Bits(v / 2, n - 1) + [if v % 2 == 1 then '1' else '0']
  }

  lemma {:induction false} BitsValue(v: nat, n: nat)
    requires n >= 1
    ensures Digits(Bits(v, n)) == Some(v % Pow2(n))
  {
    var s := Bits(v, n);
    if n == 1 {
      assert Pow2(1) == 2;
    } else {
      var p := Pow2(n - 1);
      assert s[..n - 1] == Bits(v / 2, n - 1);
      assert IsBit(s[n - 2]);
      BitsValue(v / 2, n - 1);
      var bit := if s[n - 1] == '1' then 1 else 0;
      assert bit == v % 2;
      assert Digits(s) == Some(2 * ((v / 2) % p) + bit);
      ModDouble(v, p);
      assert Pow2(n) == 2 * p;
    }
  }

  /** Taking the low bit off, then the remainder by p, gives the remainder by 2p. */
  lemma ModDouble(v: nat, p: nat)
    requires p >= 1
    ensures v % (2 * p) == 2 * ((v / 2) % p) + v % 2
  {
    var h, b := v / 2, v % 2;
    var q, r := h / p, h % p;
    assert v == 2 * h + b;
    assert h == q * p + r;
    assert v == q * (2 * p) + (2 * r + b) by {
      assert 2 * (q * p) == q * (2 * p);
    }
    ModUnique(v, 2 * p, q, 2 * r + b);
  }

  /** The remainder is the only r in [0, d) with v == q * d + r. */
  lemma ModUnique(v: int, d: int, q: int, r: int)
    requires d > 0 && 0 <= r < d && v == q * d + r
    ensures v % d == r
  {
    var k := q - v / d;
    assert k * d == v % d - r;
    assert k >= 1 ==> k * d >= d;
    assert k <= -1 ==> k * d <= -d;
    assert k == 0;
  }

  /**
   * A value written in `n` binary digits, as the program files write each
   * byte in eight, parses back to itself.
   */
  lemma ParseBitsRoundTrip(v: nat, n: nat)
    requires 1 <= n && v < Pow2(n)
    ensures ParseBase2(Bits(v, n)) == Some(v)
  {
    var s := Bits(v, n);
    assert IsBit(s[0]) && (n >= 2 ==> IsBit(s[1]));
    assert PrefixLength(s) == 0 && s[0..] == s;
    BitsValue(v, n);
    assert v % Pow2(n) == v;
    assert ParseUnsigned(s) == Some(v);
    assert !(s[0] == '-' || s[0] == '+');
  }

  /**
   * Text that `int(…, 2)` accepts is non-empty and made only of signs,
   * digits, prefix letters and underscores: never whitespace or `#`.
   */
  lemma {:induction false} ParsedTextIsLiteral(text: string)
    requires ParseBase2(text).Some?
    ensures |text| > 0
    ensures forall i :: 0 <= i < |text| ==> LiteralChar(text[i])
    ensures forall i :: 0 <= i < |text| ==> !IsSpace(text[i]) && text[i] != '#'
    decreases |text|
  {
    if |text| > 0 && (text[0] == '-' || text[0] == '+') {
      ParsedTextIsLiteral(text[1..]);
      forall i | 1 <= i < |text|
        ensures LiteralChar(text[i])
      {
        assert text[i] == text[1..][i - 1];
      }
    } else {
      var d := PrefixLength(text);
      DigitsChars(text[d..]);
      forall i | d <= i < |text|
        ensures LiteralChar(text[i])
      {
        assert text[i] == text[d..][i - d];
      }
    }
    forall i | 0 <= i < |text|
      ensures !IsSpace(text[i]) && text[i] != '#'
    {
      assert LiteralChar(text[i]);
    }
  }

  // ---------------------------------------------------------------------
  // A whole file

  datatype LoadFault =
    | InvalidLiteral(line: nat)   // int(line, 2) raised ValueError
    | ImageTooLarge(line: nat)    // the 257th code line: ram[256] raised IndexError

  datatype Image = Image(values: seq<int>, fault: Option<LoadFault>)

  /**
   * What `load` stores, line by line: the values of the code lines in order,
   * up to the first line whose literal is invalid or that would go past RAM.
   */
  function Scan(lines: seq<string>): (r: Image)
    ensures |r.values| <= 256
  {
    if |lines| == 0 then Image([], None)
    else Feed(Scan(lines[..|lines| - 1]), Code(lines[|lines| - 1]), |lines| - 1)
  }

  /** One iteration of `load`'s loop, given the code text of line `index`. */
  function Feed(prev: Image, code: string, index: nat): (r: Image)
    requires |prev.values| <= 256
    ensures |r.values| <= 256
  {
    if prev.fault.Some? || |code| == 0 then prev
    else match ParseBase2(code)
      case None => Image(prev.values, Some(InvalidLiteral(index)))
      case Some(v) =>
        if |prev.values| == 256 then Image(prev.values, Some(ImageTooLarge(index)))
        else Image(prev.values + [v], None)
  }

  /** The non-blank code lines of a file, in order. */
  function CodeLines(lines: seq<string>): (r: seq<string>)
    ensures forall i :: 0 <= i < |r| ==> |r[i]| > 0
  {
    if |lines| == 0 then []
    else
      var code := Code(lines[0]);
      (if |code| == 0 then [] else [code]) + CodeLines(lines[1..])
  }

  /** The parsed value of each code line, or `None` at the first that does not parse. */
  function ParseAll(codes: seq<string>): (r: Option<seq<int>>)
    ensures r.Some? ==> |r.value| == |codes|
  {
    if |codes| == 0 then Some([])
    else
      var head, tail := ParseBase2(codes[0]), ParseAll(codes[1..]);
      if head.Some? && tail.Some? then Some([head.value] + tail.value) else None
  }

  /**
   * A file loads without fault exactly when every code line is a valid
   * literal and there are at most 256 of them; the image is then their values
   * in order.
   */
  lemma {:induction false} ScanMeetsReference(lines: seq<string>)
    ensures var codes := CodeLines(lines);
      Scan(lines).fault.None? <==> ParseAll(codes).Some? && |codes| <= 256
    ensures Scan(lines).fault.None? ==> Scan(lines).values == ParseAll(CodeLines(lines)).value
  {
    if |lines| > 0 {
      var init, last := lines[..|lines| - 1], lines[|lines| - 1];
      ScanMeetsReference(init);
      assert lines == init + [last];
      CodeLinesSnoc(init, last);
      FeedMeetsReference(Scan(init), Code(last), |lines| - 1, CodeLines(init));
    } else {
      assert CodeLines(lines) == [];
    }
  }

  /** `Feed` keeps the correspondence of `ScanMeetsReference` when one more line is read. */
  lemma FeedMeetsReference(prev: Image, code: string, index: nat, codes: seq<string>)
    requires |prev.values| <= 256
    requires prev.fault.None? <==> ParseAll(codes).Some? && |codes| <= 256
    requires prev.fault.None? ==> prev.values == ParseAll(codes).value
    ensures var next, more := Feed(prev, code, index), codes + (if |code| == 0 then [] else [code]);
      && (next.fault.None? <==> ParseAll(more).Some? && |more| <= 256)
      && (next.fault.None? ==> next.values == ParseAll(more).value)
  {
    var tail := if |code| == 0 then [] else [code];
    ParseAllAppend(codes, tail);
    if |code| > 0 {
      ParseAllSingle(code);
    } else {
      assert codes + tail == codes;
    }
  }

  lemma ParseAllSingle(code: string)
    ensures ParseAll([code]) == if ParseBase2(code).Some? then Some([ParseBase2(code).value]) else None
  {
    assert [code][0] == code;
    assert [code][1..] == [];
    assert ParseAll([]) == Some([]);
    var head := ParseBase2(code);
    if head.Some? {
      assert [head.value] + [] == [head.value];
    }
  }

  lemma {:induction false} CodeLinesSnoc(init: seq<string>, last: string)
    ensures CodeLines(init + [last]) == CodeLines(init) + (if |Code(last)| == 0 then [] else [Code(last)])
    decreases |init|
  {
    var lines := init + [last];
    if |init| > 0 {
      assert lines[0] == init[0];
      assert lines[1..] == init[1..] + [last];
      CodeLinesSnoc(init[1..], last);
    } else {
      assert lines[1..] == [];
    }
  }

  lemma {:induction false} ParseAllAppend(a: seq<string>, b: seq<string>)
    ensures ParseAll(a + b).Some? <==> ParseAll(a).Some? && ParseAll(b).Some?
    ensures ParseAll(a + b).Some? ==> ParseAll(a + b).value == ParseAll(a).value + ParseAll(b).value
    decreases |a|
  {
    if |a| > 0 {
      assert (a + b)[0] == a[0];
      assert (a + b)[1..] == a[1..] + b;
      ParseAllAppend(a[1..], b);
    } else {
      assert a + b == b;
    }
  }

  /** The image is built by appending: loading a longer file never changes what a prefix loaded, only a fault stops it. */
  lemma {:induction false} ScanPrefix(lines: seq<string>, n: nat)
    requires n <= |lines|
    ensures Scan(lines[..n]).values <= Scan(lines).values
    ensures Scan(lines[..n]).fault.Some? ==> Scan(lines) == Scan(lines[..n])
    decreases |lines| - n
  {
    if n < |lines| {
      ScanPrefix(lines, n + 1);
      ScanStep(lines[..n + 1]);
      assert lines[..n + 1][..n] == lines[..n];
    } else {
      assert lines[..n] == lines;
    }
  }

  lemma ScanStep(lines: seq<string>)
    requires |lines| > 0
    ensures var prev := Scan(lines[..|lines| - 1]);
      prev.values <= Scan(lines).values && (prev.fault.Some? ==> Scan(lines) == prev)
  {
  }

  /** A trailing comment never changes what a line loads. */
  lemma CommentIgnored(text: string, comment: string)
    requires '#' !in text && '\n' !in text
    ensures Code(text + "#" + comment) == Code(text)
  {
    var line := text + "#" + comment;
    assert line == text + ("#" + comment);
    assert line[|text|] == '#';
    HasHashIff(line);
    HasHashIff(text);
    CodeMeetsLoad(line);
    CodeMeetsLoad(text);
    BeforeHashPrefix(text, "#" + comment);
    NoNewlines(text);
  }

  lemma {:induction false} BeforeHashPrefix(text: string, rest: string)
    requires '#' !in text && |rest| > 0 && rest[0] == '#'
    ensures BeforeHash(text + rest) == text
    decreases |text|
  {
    if |text| > 0 {
      assert (text + rest)[1..] == text[1..] + rest;
      BeforeHashPrefix(text[1..], rest);
    } else {
      assert text + rest == rest;
    }
  }

  lemma {:induction false} NoNewlines(text: string)
    requires '\n' !in text
    ensures DropNewlines(text) == text
    decreases |text|
  {
    if |text| > 0 {
      assert '\n' !in text[1..];
      NoNewlines(text[1..]);
    }
  }
}
