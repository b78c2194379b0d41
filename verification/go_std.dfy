/** The parts of Go's standard library the program relies on, on a system whose
    path separator is '/': the string helpers of package `strings`, `Ext` and
    `Base` of package `path/filepath`, `strconv.Atoi`, `fmt`'s `%d`, and the
    `error` result of a call. */
module GoStd {

  datatype Option<+T> = None | Some(value: T)

  /** What a Go call that returns `error` produced: nil, an error with its
      message, or a run-time panic that ends the process. */
  datatype Status = Ok | Err(msg: string) | Panic(reason: string)

  predicate HasPrefix(s: string, p: string) {
    |p| <= |s| && s[..|p|] == p
  }

  predicate HasSuffix(s: string, p: string) {
    |p| <= |s| && s[|s| - |p|..] == p
  }

  /** strings.TrimPrefix: removes `p` once from the front of `s`, if it is there. */
  function TrimPrefix(s: string, p: string): string {
    if HasPrefix(s, p) then s[|p|..] else s
  }

  /** strings.TrimSuffix: removes `p` once from the end of `s`, if it is there. */
  function TrimSuffix(s: string, p: string): string {
    if HasSuffix(s, p) then s[..|s| - |p|] else s
  }

  /** `s` with a '/' appended unless it already ends with one. */
  function WithTrailingSlash(s: string): string {
    if HasSuffix(s, "/") then s else s + "/"
  }

  predicate NoSlash(s: string) {
    forall i :: 0 <= i < |s| ==> s[i] != '/'
  }

  /** filepath.Ext: the suffix of `path` that starts at the last '.' of its
      last element, or "" when that element has no '.'. */
  function Ext(path: string): (e: string)
    ensures HasSuffix(path, e)
    ensures e == "" || e[0] == '.'
    ensures forall i :: 1 <= i < |e| ==> e[i] != '.' && e[i] != '/'
  {
    if path == [] || path[|path| - 1] == '/' then ""
    else if path[|path| - 1] == '.' then "."
    else
      var e := Ext(path[..|path| - 1]);
      if e == "" then "" else e + [path[|path| - 1]]
  }

  /** Dropping the last character of a path whose extension is longer than
      "." drops the last character of the extension. */
  lemma ExtDropLast(path: string)
    requires |Ext(path)| >= 2
    ensures |path| >= 1
    ensures Ext(path[..|path| - 1]) == Ext(path)[..|Ext(path)| - 1]
  {
  }

  /** An extension other than "" and "." has a character after its '.'. */
  lemma ExtBeyondDot(path: string)
    requires Ext(path) != "" && Ext(path) != "."
    ensures |Ext(path)| >= 2
  {
    var e := Ext(path);
    assert e == [e[0]] + e[1..];
  }

  /** The extension of a prefix that still reaches into the extension is
      the matching prefix of the extension. */
  lemma {:induction false} ExtOfPrefix(p: string, k: nat)
    requires Ext(p) != "" && |p| - |Ext(p)| < k <= |p|
    ensures Ext(p[..k]) == Ext(p)[..k - (|p| - |Ext(p)|)]
    decreases |p| - k
  {
    if k == |p| {
      assert p[..k] == p;
    } else {
      var e := Ext(p);
      assert |e| >= 2;
      ExtDropLast(p);
      var q := p[..|p| - 1];
      assert Ext(q) == e[..|e| - 1] && |q| - |Ext(q)| == |p| - |e|;
      ExtOfPrefix(q, k);
      assert q[..k] == p[..k];
      assert e[..|e| - 1][..k - (|p| - |e|)] == e[..k - (|p| - |e|)];
    }
  }

  function StripTrailingSlashes(p: string): (r: string)
  {
    if p != [] && p[|p| - 1] == '/' then StripTrailingSlashes(p[..|p| - 1]) else p
  }

  /** The characters after the last '/' of `p`. */
  function LastElement(p: string): (r: string)
  {
    if p == [] || p[|p| - 1] == '/' then []
    else LastElement(p[..|p| - 1]) + [p[|p| - 1]]
  }

  /** filepath.Base: the last element of `path` after trailing separators are
      removed; "." for the empty path and "/" for a path of separators only. */
  function Base(path: string): string {
    if path == "" then "."
    else
      var t := StripTrailingSlashes(path);
      if t == "" then "/" else LastElement(t)
  }

  predicate IsDigit(c: char) {
    '0' <= c <= '9'
  }

  predicate AllDigits(d: string) {
    forall i :: 0 <= i < |d| ==> IsDigit(d[i])
  }

  /** The number a string of decimal digits denotes. */
  function DigitsValue(d: string): nat
    requires AllDigits(d)
  {
    if d == [] then 0 else 10 * DigitsValue(d[..|d| - 1]) + (d[|d| - 1] as int - '0' as int)
  }

  function Pow10(n: nat): nat {
    if n == 0 then 1 else 10 * Pow10(n - 1)
  }

  const MaxInt64: int := 0x7fff_ffff_ffff_ffff

  /** strconv.Atoi on a 64-bit platform returns a nil error: an optional sign,
      at least one decimal digit and nothing else, and a value that fits an
      int64. */
  predicate AtoiSucceeds(s: string) {
    var signed := |s| > 0 && (s[0] == '+' || s[0] == '-');
    var digits := if signed then s[1..] else s;
    |digits| > 0 && AllDigits(digits) &&
    (if signed && s[0] == '-' then DigitsValue(digits) <= MaxInt64 + 1
     else DigitsValue(digits) <= MaxInt64)
  }

  /** strconv.Atoi fails on a string that starts with neither a sign nor a digit. */
  lemma AtoiFailsOnLetter(s: string)
    requires |s| > 0 && !IsDigit(s[0]) && s[0] != '+' && s[0] != '-'
    ensures !AtoiSucceeds(s)
  {
    assert !IsDigit(s[0]);
  }

  /** strconv.Atoi accepts up to 18 digits: their value is below 10^18,
      which fits an int64. */
  lemma AtoiOfShortDigits(d: string)
    requires 1 <= |d| <= 18 && AllDigits(d)
    ensures AtoiSucceeds(d)
  {
    DigitsValueBound(d);
    Pow10Monotone(|d|, 18);
    assert Pow10(9) == 1_000_000_000;
    Pow10Add(9, 9);
    assert IsDigit(d[0]);
  }

  /** The base of `dir + "/" + d` is the non-empty slash-free `d`. */
  lemma BaseAfterSlash(dir: string, d: string)
    requires d != "" && NoSlash(d)
    ensures Base(dir + "/" + d) == d
  {
    var p := dir + "/" + d;
    assert p[|p| - 1] == d[|d| - 1];
    assert StripTrailingSlashes(p) == p;
    LastElementAfterSlash(dir, d);
  }

  /** A non-empty name without separators is its own base. */
  lemma BaseOfNoSlash(p: string)
    requires p != "" && NoSlash(p)
    ensures Base(p) == p
  {
    assert StripTrailingSlashes(p) == p;
    LastElementOfNoSlash(p);
  }

  /** fmt's %d of a non-negative integer. */
  function Decimal(n: nat): (d: string)
    ensures |d| > 0 && AllDigits(d)
  {
    if n < 10 then [('0' as int + n) as char]
    else Decimal(n / 10) + [('0' as int + n % 10) as char]
  }

  /** strings.Split(s, "/"): the pieces between separators, one more piece than
      there are separators. */
  function Split(s: string): (parts: seq<string>)
    ensures |parts| >= 1
  {
    if s == [] then [""]
    else
      var rest := Split(s[1..]);
      if s[0] == '/' then [""] + rest else [[s[0]] + rest[0]] + rest[1..]
  }

  /** strings.Join(parts, "/"). */
  function Join(parts: seq<string>): string {
    if parts == [] then ""
    else if |parts| == 1 then parts[0]
    else parts[0] + "/" + Join(parts[1..])
  }

  lemma {:induction false} DigitsValueBound(d: string)
    requires AllDigits(d)
    ensures DigitsValue(d) < Pow10(|d|)
  {
    if d != [] {
      DigitsValueBound(d[..|d| - 1]);
    }
  }

  /** Reading back what %d wrote gives the number. */
  lemma {:induction false} DecimalRoundTrip(n: nat)
    ensures DigitsValue(Decimal(n)) == n
  {
    if n >= 10 {
      DecimalRoundTrip(n / 10);
      var d := Decimal(n);
      assert d[..|d| - 1] == Decimal(n / 10);
    }
  }

  lemma {:induction false} SplitPiecesHaveNoSlash(s: string)
    ensures forall k :: 0 <= k < |Split(s)| ==> NoSlash(Split(s)[k])
  {
    if s != [] {
      SplitPiecesHaveNoSlash(s[1..]);
    }
  }

  /** Joining the pieces of a split gives the string back. */
  lemma {:induction false} JoinSplit(s: string)
    ensures Join(Split(s)) == s
  {
    if s != [] {
      JoinSplit(s[1..]);
      var rest := Split(s[1..]);
      if s[0] == '/' {
        assert Split(s) == [""] + rest;
        assert Join(Split(s)) == "" + "/" + Join(rest);
      } else if |rest| == 1 {
        assert Join(Split(s)) == [s[0]] + rest[0];
      } else {
        assert Split(s)[1..] == rest[1..];
        assert Join(Split(s)) == [s[0]] + rest[0] + "/" + Join(rest[1..]);
      }
    }
  }

  /** A slash-free prefix glues onto the first piece. */
  lemma {:induction false} SplitPrepend(x: string, s: string)
    requires NoSlash(x)
    ensures Split(x + s) == [x + Split(s)[0]] + Split(s)[1..]
  {
    if x != [] {
      SplitPrepend(x[1..], s);
      assert (x + s)[0] == x[0] && (x + s)[1..] == x[1..] + s;
      var rest := Split(x[1..] + s);
      assert rest == [x[1..] + Split(s)[0]] + Split(s)[1..];
      assert Split(x + s) == [[x[0]] + rest[0]] + rest[1..];
      assert [x[0]] + (x[1..] + Split(s)[0]) == x + Split(s)[0];
    } else {
      assert x + s == s && x + Split(s)[0] == Split(s)[0];
      assert [Split(s)[0]] + Split(s)[1..] == Split(s);
    }
  }

  /** Splitting a join of slash-free pieces gives the pieces back. */
  lemma {:induction false} SplitJoin(parts: seq<string>)
    requires |parts| >= 1
    requires forall k :: 0 <= k < |parts| ==> NoSlash(parts[k])
    ensures Split(Join(parts)) == parts
  {
    if |parts| == 1 {
      SplitPrepend(parts[0], "");
      assert parts[0] + "" == parts[0];
    } else {
      SplitJoin(parts[1..]);
      var tail := "/" + Join(parts[1..]);
      SplitPrepend(parts[0], tail);
      assert tail[0] == '/' && tail[1..] == Join(parts[1..]);
      assert Split(tail) == [""] + parts[1..];
      assert parts[0] + tail == Join(parts);
      assert parts[0] + "" == parts[0];
      assert [parts[0]] + parts[1..] == parts;
    }
  }

  lemma {:induction false} JoinAppend(a: seq<string>, b: seq<string>)
    requires |a| >= 1 && |b| >= 1
    ensures Join(a + b) == Join(a) + "/" + Join(b)
  {
    if |a| == 1 {
      assert (a + b)[1..] == b;
    } else {
      JoinAppend(a[1..], b);
      assert (a + b)[1..] == a[1..] + b;
    }
  }

  /** No '.' and no '/'. */
  predicate NoDotNoSlash(y: string) {
    forall i :: 0 <= i < |y| ==> y[i] != '.' && y[i] != '/'
  }

  /** filepath.Ext returns everything from the last '.' of the last element. */
  lemma {:induction false} ExtOfDotSuffix(x: string, y: string)
    requires NoDotNoSlash(y)
    ensures Ext(x + "." + y) == "." + y
  {
    var p := x + "." + y;
    if y == [] {
      assert p[|p| - 1] == '.';
    } else {
      assert p[..|p| - 1] == x + "." + y[..|y| - 1];
      ExtOfDotSuffix(x, y[..|y| - 1]);
      assert p[|p| - 1] == y[|y| - 1];
      assert "." + y[..|y| - 1] + [y[|y| - 1]] == "." + y;
    }
  }

  lemma {:induction false} Pow10Add(a: nat, b: nat)
    ensures Pow10(a + b) == Pow10(a) * Pow10(b)
  {
    if b > 0 {
      Pow10Add(a, b - 1);
      assert Pow10(a + b) == 10 * Pow10(a + b - 1);
      assert Pow10(a) * Pow10(b) == Pow10(a) * (10 * Pow10(b - 1));
    }
  }

  lemma {:induction false} Pow10Monotone(a: nat, b: nat)
    requires a <= b
    ensures Pow10(a) <= Pow10(b)
    decreases b
  {
    if a < b {
      Pow10Monotone(a, b - 1);
    }
  }

  /** A name without separators is its own last element. */
  lemma {:induction false} LastElementOfNoSlash(d: string)
    requires NoSlash(d)
    ensures LastElement(d) == d
  {
    if d != [] {
      LastElementOfNoSlash(d[..|d| - 1]);
      assert d[..|d| - 1] + [d[|d| - 1]] == d;
    }
  }

  /** The last element of `x + "/" + d` is `d` when `d` has no separator. */
  lemma {:induction false} LastElementAfterSlash(x: string, d: string)
    requires NoSlash(d)
    ensures LastElement(x + "/" + d) == d
  {
    var p := x + "/" + d;
    if d != [] {
      assert p[..|p| - 1] == x + "/" + d[..|d| - 1];
      LastElementAfterSlash(x, d[..|d| - 1]);
      assert d[..|d| - 1] + [d[|d| - 1]] == d;
    } else {
      assert p[|p| - 1] == '/';
    }
  }

  /** Dropping the last element of `s` drops it from its last `k` elements. */
  lemma DropLastOfTail<T>(s: seq<T>, k: nat)
    requires 1 <= k <= |s|
    ensures s[..|s| - 1] == s[..|s| - k] + s[|s| - k..][..k - 1]
  {
  }

  /** `x + "/" + d` with a slash-free `d` keeps `x` in front and has `d` as
      its last element. */
  lemma SlashJoined(x: string, d: string)
    requires NoSlash(d)
    ensures (x + "/" + d)[..|x|] == x
    ensures LastElement(x + "/" + d) == d
  {
    LastElementAfterSlash(x, d);
  }

  /** A prefix of a prefix of `s` is a prefix of `s`. */
  lemma PrefixTransitive(s: string, p: string, q: string)
    requires HasPrefix(s, p) && HasPrefix(p, q)
    ensures HasPrefix(s, q)
  {
    assert s[..|q|] == s[..|p|][..|q|];
  }

  /** Whatever is put in front of `t`, the result ends with `t`. */
  lemma SuffixOfConcat(h: string, t: string)
    ensures HasSuffix(h + t, t)
  {
    assert (h + t)[|h|..] == t;
  }

  lemma ConcatAssoc<T>(a: seq<T>, b: seq<T>, c: seq<T>)
    ensures a + b + c == a + (b + c)
  {
  }
}
