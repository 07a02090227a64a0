/** The slice of PHP's value semantics the copier relies on: scalar values,
    ordered associative arrays, string conversion, `is_numeric`, `ltrim`,
    `strtok`, `str_replace` and `strpos`. */
module Php {
  import opened Common

  /** A scalar as it appears in post fields, post meta and decoded block JSON. */
  datatype Value = Null | Bool(b: bool) | Num(n: int) | Text(s: string)

  /** An ordered associative array with string keys (a PHP array or a JSON object). */
  type Fields = seq<(string, Value)>

  function KeySet(f: Fields): set<string> {
    set i | 0 <= i < |f| :: f[i].0
  }

  ghost predicate UniqueKeys(f: Fields) {
    forall i, j :: 0 <= i < j < |f| ==> f[i].0 != f[j].0
  }

  lemma KeySetCons(x: (string, Value), f: Fields)
    ensures KeySet([x] + f) == {x.0} + KeySet(f)
  {
    var g := [x] + f;
    assert g[0].0 == x.0;
    forall key | key in KeySet(g) ensures key in {x.0} + KeySet(f) {
      var i :| 0 <= i < |g| && g[i].0 == key;
      if i > 0 { assert f[i - 1].0 == key; }
    }
    forall key | key in KeySet(f) ensures key in KeySet(g) {
      var i :| 0 <= i < |f| && f[i].0 == key;
      assert g[i + 1].0 == key;
    }
  }

  /** `$f[$k]`: the value under a key, or null when the key is absent. */
  function Get(f: Fields, k: string): (v: Value)
    ensures k !in KeySet(f) ==> v == Null
    ensures |f| > 0 && f[0].0 == k ==> v == f[0].1
  {
    if f == [] then Null else if f[0].0 == k then f[0].1 else Get(f[1..], k)
  }

  /** `$f[$k] = $v`: overwrite in place when the key exists, append otherwise. */
  function Set(f: Fields, k: string, v: Value): (r: Fields)
    ensures Get(r, k) == v
    ensures forall k' :: k' != k ==> Get(r, k') == Get(f, k')
    ensures KeySet(r) == KeySet(f) + {k}
    ensures k in KeySet(f) ==> |r| == |f| && forall i :: 0 <= i < |f| ==> r[i].0 == f[i].0
    ensures k !in KeySet(f) ==> r == f + [(k, v)]
    ensures UniqueKeys(f) ==> UniqueKeys(r)
  {
    if f == [] then
      var r := [(k, v)];
      assert KeySet(r) == {k} by { KeySetCons((k, v), []); assert r == [(k, v)] + []; }
      assert UniqueKeys(r);
      r
    else if f[0].0 == k then
      var r := [(k, v)] + f[1..];
      SetHere(f, k, v);
      r
    else
      var rest := Set(f[1..], k, v);
      SetFurther(f, k, v, rest);
      [f[0]] + rest
  }

  /** What an assignment promises, as one predicate the step lemmas can pass on. */
  ghost predicate SetFacts(f: Fields, k: string, v: Value, r: Fields) {
    && Get(r, k) == v
    && (forall k' :: k' != k ==> Get(r, k') == Get(f, k'))
    && KeySet(r) == KeySet(f) + {k}
    && (k in KeySet(f) ==> |r| == |f| && forall i :: 0 <= i < |f| ==> r[i].0 == f[i].0)
    && (k !in KeySet(f) ==> r == f + [(k, v)])
    && (UniqueKeys(f) ==> UniqueKeys(r))
  }

  /** Overwriting the first entry. */
  lemma SetHere(f: Fields, k: string, v: Value)
    requires f != [] && f[0].0 == k
    ensures SetFacts(f, k, v, [(k, v)] + f[1..])
  {
    var r := [(k, v)] + f[1..];
    KeySetCons(f[0], f[1..]);
    KeySetCons((k, v), f[1..]);
    assert f == [f[0]] + f[1..];
    assert forall i :: 0 <= i < |f| ==> r[i].0 == f[i].0;
    assert r[1..] == f[1..];
    assert UniqueKeys(f) ==> UniqueKeys(r) by {
      if UniqueKeys(f) {
        UniqueCons(f[0], f[1..]);
        UniqueCons((k, v), f[1..]);
      }
    }
  }

  /** Assigning further down, behind a first entry with another key. */
  lemma SetFurther(f: Fields, k: string, v: Value, rest: Fields)
    requires f != [] && f[0].0 != k
    requires SetFacts(f[1..], k, v, rest)
    ensures SetFacts(f, k, v, [f[0]] + rest)
  {
    FurtherGet(f, k, v, rest);
    FurtherShape(f, k, v, rest);
    FurtherUnique(f, k, v, rest);
  }

  lemma FurtherGet(f: Fields, k: string, v: Value, rest: Fields)
    requires f != [] && f[0].0 != k
    requires SetFacts(f[1..], k, v, rest)
    ensures Get([f[0]] + rest, k) == v
    ensures forall k' :: k' != k ==> Get([f[0]] + rest, k') == Get(f, k')
  {
    var r := [f[0]] + rest;
    assert r[1..] == rest;
    forall k' | k' != k ensures Get(r, k') == Get(f, k') {
    }
  }

  lemma FurtherShape(f: Fields, k: string, v: Value, rest: Fields)
    requires f != [] && f[0].0 != k
    requires SetFacts(f[1..], k, v, rest)
    ensures KeySet([f[0]] + rest) == KeySet(f) + {k}
    ensures k in KeySet(f) ==> |[f[0]] + rest| == |f| && forall i :: 0 <= i < |f| ==> ([f[0]] + rest)[i].0 == f[i].0
    ensures k !in KeySet(f) ==> [f[0]] + rest == f + [(k, v)]
  {
    var r := [f[0]] + rest;
    KeySetCons(f[0], f[1..]);
    KeySetCons(f[0], rest);
    assert f == [f[0]] + f[1..];
    if k in KeySet(f) {
      forall i | 0 <= i < |f| ensures r[i].0 == f[i].0 {
        if i > 0 { assert r[i] == rest[i - 1] && f[i] == f[1..][i - 1]; }
      }
    } else {
      assert r == [f[0]] + (f[1..] + [(k, v)]);
    }
  }

  lemma FurtherUnique(f: Fields, k: string, v: Value, rest: Fields)
    requires f != [] && f[0].0 != k
    requires SetFacts(f[1..], k, v, rest)
    ensures UniqueKeys(f) ==> UniqueKeys([f[0]] + rest)
  {
    if UniqueKeys(f) {
      KeySetCons(f[0], f[1..]);
      assert f == [f[0]] + f[1..];
      UniqueCons(f[0], f[1..]);
      UniqueCons(f[0], rest);
    }
  }

  /** Keys are distinct exactly when the tail's are and the head's is not among them. */
  lemma UniqueCons(x: (string, Value), f: Fields)
    ensures UniqueKeys([x] + f) <==> UniqueKeys(f) && x.0 !in KeySet(f)
  {
    var g := [x] + f;
    assert forall i :: 0 <= i < |f| ==> g[i + 1] == f[i];
    if UniqueKeys(g) {
      forall i | 0 <= i < |f| ensures f[i].0 != x.0 {
        assert g[0].0 != g[i + 1].0;
      }
    }
    if UniqueKeys(f) && x.0 !in KeySet(f) {
      forall i, j | 0 <= i < j < |g| ensures g[i].0 != g[j].0 {
        if i == 0 {
          assert g[j].0 == f[j - 1].0;
        } else {
          assert g[i].0 == f[i - 1].0 && g[j].0 == f[j - 1].0;
        }
      }
    }
  }

  /** The string PHP makes of a scalar when it is interpolated or concatenated. */
  function ToPhpString(v: Value): string {
    match v
    case Null => ""
    case Bool(b) => if b then "1" else ""
    case Num(n) => if n < 0 then "-" + Decimal(-n) else Decimal(n)
    case Text(s) => s
  }

  /** `ltrim($s, $c)` for a single character. */
  function LTrim(s: string, c: char): (r: string)
    ensures |r| <= |s| && r == s[|s| - |r|..]
    ensures r == [] || r[0] != c
    ensures forall i :: 0 <= i < |s| - |r| ==> s[i] == c
  {
    if s != [] && s[0] == c then LTrim(s[1..], c) else s
  }

  /** The text up to (not including) the first `d`. */
  function UpTo(s: string, d: char): (r: string)
    ensures |r| <= |s| && r == s[..|r|]
    ensures d !in r
    ensures |r| < |s| ==> s[|r|] == d
  {
    if s == [] || s[0] == d then [] else [s[0]] + UpTo(s[1..], d)
  }

  /** `strtok($s, $d)` on its first call: leading delimiters are skipped and the
      first token is returned ("" stands for the `false` PHP gives when there is none). */
  function StrTok(s: string, d: char): (r: string)
    ensures d !in r
    ensures d !in s ==> r == s
  {
    if d !in s then
      assert LTrim(s, d) == s;
      UpToWhole(s, d);
      UpTo(s, d)
    else
      UpTo(LTrim(s, d), d)
  }

  /** Text without the delimiter is one whole token. */
  lemma {:induction false} UpToWhole(s: string, d: char)
    requires d !in s
    ensures UpTo(s, d) == s
  {
    if s != [] {
      assert d !in s[1..];
      UpToWhole(s[1..], d);
      assert s == [s[0]] + s[1..];
    }
  }

  predicate HasPrefix(s: string, p: string) {
    |p| <= |s| && s[..|p|] == p
  }

  /** `strpos($s, $sub) !== false` (an empty needle is found at 0 since PHP 8). */
  predicate Contains(s: string, sub: string)
    decreases |s|
  {
    HasPrefix(s, sub) || (s != [] && Contains(s[1..], sub))
  }

  /** `strpos` finds a needle exactly when it starts at some offset. */
  lemma {:induction false} ContainsAt(s: string, sub: string)
    ensures Contains(s, sub) <==> exists i :: 0 <= i <= |s| && HasPrefix(s[i..], sub)
    decreases |s|
  {
    if HasPrefix(s, sub) {
      assert s[0..] == s;
    }
    if s != [] {
      ContainsAt(s[1..], sub);
      if Contains(s[1..], sub) {
        var i :| 0 <= i <= |s| - 1 && HasPrefix(s[1..][i..], sub);
        assert s[1..][i..] == s[i + 1..];
      }
      if exists i :: 0 <= i <= |s| && HasPrefix(s[i..], sub) {
        var i :| 0 <= i <= |s| && HasPrefix(s[i..], sub);
        if i > 0 {
          assert s[1..][i - 1..] == s[i..];
        }
      }
    } else {
      if exists i :: 0 <= i <= |s| && HasPrefix(s[i..], sub) {
        var i :| 0 <= i <= |s| && HasPrefix(s[i..], sub);
        assert s[i..] == s;
      }
    }
  }

  /** `strpos($s, $sub)`: the offset of the first occurrence, or false. */
  function StrPos(s: string, sub: string): (r: Value)
    ensures r.Num? || r == Bool(false)
    ensures r == Bool(false) <==> !Contains(s, sub)
    ensures r.Num? ==> 0 <= r.n <= |s| && HasPrefix(s[r.n..], sub)
    ensures r.Num? ==> forall j :: 0 <= j < r.n ==> !HasPrefix(s[j..], sub)
    decreases |s|
  {
    if HasPrefix(s, sub) then
      assert s[0..] == s;
      Num(0)
    else if s == [] then Bool(false)
    else
      var rest := StrPos(s[1..], sub);
      if rest.Num? then
        StrPosShift(s, sub, rest.n);
        Num(rest.n + 1)
      else Bool(false)
  }

  /** An occurrence found in the tail sits one further on in the text. */
  lemma StrPosShift(s: string, sub: string, n: int)
    requires s != [] && !HasPrefix(s, sub) && 0 <= n <= |s| - 1
    requires HasPrefix(s[1..][n..], sub) && forall j :: 0 <= j < n ==> !HasPrefix(s[1..][j..], sub)
    ensures HasPrefix(s[n + 1..], sub) && forall j :: 0 <= j < n + 1 ==> !HasPrefix(s[j..], sub)
  {
    assert s[1..][n..] == s[n + 1..];
    forall j | 0 <= j < n + 1 ensures !HasPrefix(s[j..], sub) {
      if j == 0 {
        assert s[0..] == s;
      } else {
        assert s[1..][j - 1..] == s[j..];
      }
    }
  }

  /** A needle placed anywhere in a text is found by `strpos`. */
  lemma {:induction false} ContainsPlaced(a: string, sub: string, b: string)
    ensures Contains(a + sub + b, sub)
    decreases |a|
  {
    var s := a + sub + b;
    if a == [] {
      assert s[..|sub|] == sub;
    } else {
      assert s[1..] == a[1..] + sub + b;
      ContainsPlaced(a[1..], sub, b);
    }
  }

  /** `str_replace($pat, '', $s)`: every occurrence, scanned left to right. */
  function RemoveAll(s: string, pat: string): (r: string)
    requires pat != []
    ensures |r| <= |s|
    decreases |s|
  {
    if |s| < |pat| then s
    else if s[..|pat|] == pat then RemoveAll(s[|pat|..], pat)
    else [s[0]] + RemoveAll(s[1..], pat)
  }

  /** A string without the pattern is kept whole. */
  lemma {:induction false} RemoveAllAbsent(s: string, pat: string)
    requires pat != []
    ensures !Contains(s, pat) ==> RemoveAll(s, pat) == s
    decreases |s|
  {
    if !Contains(s, pat) && |s| >= |pat| {
      RemoveAllAbsent(s[1..], pat);
      assert [s[0]] + s[1..] == s;
    }
  }

  /** A pattern at the very front is removed first. */
  lemma RemoveAllLead(pat: string, s: string)
    requires pat != []
    ensures RemoveAll(pat + s, pat) == RemoveAll(s, pat)
  {
    assert (pat + s)[..|pat|] == pat && (pat + s)[|pat|..] == s;
  }

  /** A front part holding no first character of the pattern is kept as it is. */
  lemma {:induction false} RemoveAllSkip(q: string, s: string, pat: string)
    requires pat != [] && pat[0] !in q
    ensures RemoveAll(q + s, pat) == q + RemoveAll(s, pat)
    decreases |q|
  {
    var t := q + s;
    if q == [] {
      assert t == s;
    } else if |t| < |pat| {
      assert RemoveAll(s, pat) == s;
    } else {
      var rest := RemoveAll(s, pat);
      assert RemoveAll(q[1..] + s, pat) == q[1..] + rest by {
        RemoveAllSkip(q[1..], s, pat);
      }
      assert RemoveAll(t, pat) == [q[0]] + RemoveAll(q[1..] + s, pat) by {
        assert t[..|pat|][0] == q[0];
        assert t[1..] == q[1..] + s;
      }
      assert [q[0]] + (q[1..] + rest) == q + rest by {
        assert [q[0]] + q[1..] == q;
      }
    }
  }

  predicate IsDigit(c: char) { '0' <= c <= '9' }

  predicate AllDigits(s: string) { forall i :: 0 <= i < |s| ==> IsDigit(s[i]) }

  /** Space, tab, newline, carriage return, vertical tab and form feed. */
  predicate IsSpace(c: char) {
    c == ' ' || c == '\t' || c == '\n' || c == '\r' || c == 11 as char || c == 12 as char
  }

  function TrimSpace(s: string): (r: string)
    ensures |r| <= |s|
    ensures r == [] || (!IsSpace(r[0]) && !IsSpace(r[|r| - 1]))
    decreases |s|
  {
    if s == [] then s
    else if IsSpace(s[0]) then TrimSpace(s[1..])
    else if IsSpace(s[|s| - 1]) then TrimSpace(s[..|s| - 1])
    else s
  }

  /** Digits with at most one '.', and at least one digit: `LNUM` or `DNUM`. */
  predicate IsMantissa(m: string) {
    var dot := UpTo(m, '.');
    if |dot| == |m| then m != [] && AllDigits(m)
    else AllDigits(dot) && AllDigits(m[|dot| + 1..]) && |m| >= 2
  }

  /** Where the exponent marker `e`/`E` is, or |s| when there is none. */
  function ExponentAt(s: string): (k: nat)
    ensures k <= |s|
    ensures k < |s| ==> s[k] == 'e' || s[k] == 'E'
  {
    if s == [] then 0
    else if s[0] == 'e' || s[0] == 'E' then 0
    else 1 + ExponentAt(s[1..])
  }

  /** Optional sign, then a mantissa, then an optional exponent. */
  predicate IsUnsignedNumber(u: string) {
    var k := ExponentAt(u);
    && IsMantissa(u[..k])
    && (k == |u| ||
        var e := u[k + 1..];
        var digits := if e != [] && (e[0] == '+' || e[0] == '-') then e[1..] else e;
        digits != [] && AllDigits(digits))
  }

  function Unsigned(t: string): string {
    if t != [] && (t[0] == '+' || t[0] == '-') then t[1..] else t
  }

  /** PHP 8's `is_numeric` on a string: surrounding whitespace, a sign, a
      decimal mantissa and an exponent are accepted; hex and the empty string
      are not. */
  predicate IsNumericString(s: string) {
    IsUnsignedNumber(Unsigned(TrimSpace(s)))
  }

  /** `is_numeric($s) && $s > 0`: numeric, not negative, and with a non-zero digit
      in the mantissa. */
  predicate IsPositiveNumeric(s: string): (r: bool)
    // on a plain decimal integer it holds exactly when some digit is not 0
    ensures s != [] && AllDigits(s) ==> (r <==> exists i :: 0 <= i < |s| && s[i] != '0')
  {
    DigitStringShape(s);
    var t := TrimSpace(s);
    var u := Unsigned(t);
    && IsNumericString(s)
    && !(t != [] && t[0] == '-')
    && exists i :: 0 <= i < ExponentAt(u) && '1' <= u[i] <= '9'
  }

  /** A plain decimal integer is untouched by trimming and sign handling, has
      no exponent, and is a mantissa. */
  lemma DigitStringShape(s: string)
    ensures s != [] && AllDigits(s) ==>
      TrimSpace(s) == s && Unsigned(s) == s && ExponentAt(s) == |s| && IsMantissa(s)
  {
    if s != [] && AllDigits(s) {
      assert !IsSpace(s[0]) && !IsSpace(s[|s| - 1]);
    }
  }

  /** `is_numeric` on a scalar. */
  predicate IsNumeric(v: Value) {
    match v
    case Num(_) => true
    case Text(s) => IsNumericString(s)
    case _ => false
  }
}
